/** The gate that keeps server and CLI tags on one rising sequence of shared crate versions. */
module ReleaseGate {
  import opened Wrappers
  import opened SemVer

  const REFS: string := "refs/tags/"
  const PEELED: string := "^{}"

  datatype Component = Server | Cli

  function Prefix(c: Component): string {
    match c
    case Server => "server-v"
    case Cli => "cli-v"
  }

  function WithoutSuffix(s: string, suffix: string): string {
    if |suffix| <= |s| && s[|s| - |suffix|..] == suffix then s[..|s| - |suffix|] else s
  }

  /** The version part of a server or CLI tag. */
  function TagVersion(tag: string): Option<string> {
    if Prefix(Server) < tag then Some(tag[|Prefix(Server)|..])
    else if Prefix(Cli) < tag then Some(tag[|Prefix(Cli)|..])
    else None
  }

  /** The tag a line of `git ls-remote --tags` names, if it is one the gate looks at. */
  function LineTag(fields: seq<string>): Option<string> {
    if |fields| != 2 || !(REFS <= fields[1]) then None else
    var name := WithoutSuffix(fields[1][|REFS|..], PEELED);
    if TagVersion(name).Some? then Some(name) else None
  }

  function Tags(lines: seq<seq<string>>): set<string> {
    set i | 0 <= i < |lines| && LineTag(lines[i]).Some? :: LineTag(lines[i]).value
  }

  method RemoteTags(lines: seq<seq<string>>) returns (tags: set<string>)
    ensures tags == Tags(lines)
  {
    hide LineTag;
    tags := {};
    for i := 0 to |lines|
      invariant tags == Tags(lines[..i])
    {
      assert lines[..i + 1][..i] == lines[..i];
      TagsOfLast(lines[..i + 1]);
      if LineTag(lines[i]).Some? {
        tags := tags + {LineTag(lines[i]).value};
      }
    }
    assert lines[..|lines|] == lines;
  }

  lemma TagsOfLast(lines: seq<seq<string>>)
    requires lines != []
    ensures var last := LineTag(lines[|lines| - 1]);
            Tags(lines) == Tags(lines[..|lines| - 1]) + if last.Some? then {last.value} else {}
  {
    hide LineTag;
    var front := lines[..|lines| - 1];
    forall t | t in Tags(lines) && !(LineTag(lines[|lines| - 1]) == Some(t)) ensures t in Tags(front) {
      var i :| 0 <= i < |lines| && LineTag(lines[i]) == Some(t);
      assert front[i] == lines[i];
    }
    forall t | t in Tags(front) ensures t in Tags(lines) {
      var i :| 0 <= i < |front| && LineTag(front[i]) == Some(t);
      assert lines[i] == front[i];
    }
  }

  // ----- the decision -----

  /** A tag that forbids the candidate: its version is neither below it nor the same text. */
  predicate Blocks(tag: string, candidate: Version, currentTag: string) {
    && tag != currentTag && TagVersion(tag).Some? && Parse(TagVersion(tag).value).Some?
    && var version := Parse(TagVersion(tag).value).value;
      !Precedes(version, candidate) && version.text != candidate.text
  }

  ghost predicate Accepts(version: string, currentTag: string, tags: set<string>) {
    Parse(version).Some? && forall tag :: tag in tags ==> !Blocks(tag, Parse(version).value, currentTag)
  }

  /** Exit status 2 for a malformed candidate, 1 when a tag blocks it, 0 otherwise. */
  method Gate(version: string, currentTag: string, lines: seq<seq<string>>) returns (status: nat)
    ensures status == 2 <==> Parse(version).None?
    ensures status == 0 <==> Accepts(version, currentTag, Tags(lines))
    ensures status <= 2
  {
    hide Parse, Precedes, LineTag, Tags;
    var candidate := Parse(version);
    if candidate.None? {
      return 2;
    }
    ParsedIsWellFormed(version);
    var tags := RemoteTags(lines);
    var rest, blocking := tags, false;
    while rest != {}
      invariant rest <= tags
      invariant blocking <==> exists tag :: tag in tags - rest && Blocks(tag, candidate.value, currentTag)
      decreases rest
    {
      var tag :| tag in rest;
      var text := TagVersion(tag);
      if tag != currentTag && text.Some? && Parse(text.value).Some? {
        var previous := Parse(text.value).value;
        ParsedIsWellFormed(text.value);
        var below := LessThan(previous, candidate.value);
        if !below && previous.text != candidate.value.text {
          blocking := true;
        }
      }
      ghost var seen := tags - rest;
      rest := rest - {tag};
      assert tags - rest == seen + {tag};
    }
    assert tags - rest == tags;
    status := if blocking then 1 else 0;
  }

  // ----- histories -----

  /** A release tag with the tag listing it was checked against. */
  datatype Release = Release(component: Component, version: string, lines: seq<seq<string>>)

  function Tag(r: Release): string {
    Prefix(r.component) + r.version
  }

  lemma TagCarriesItsVersion(r: Release)
    requires r.version != ""
    ensures TagVersion(Tag(r)) == Some(r.version)
  {
    assert Prefix(Server)[0] == 's' && Prefix(Cli)[0] == 'c';
    assert Tag(r)[|Prefix(r.component)|..] == r.version;
    assert Tag(r)[0] == Prefix(r.component)[0];
  }

  /** Every release was accepted, and its listing showed every release before it. */
  ghost predicate GatedHistory(history: seq<Release>) {
    && (forall j :: 0 <= j < |history| ==> Accepts(history[j].version, Tag(history[j]), Tags(history[j].lines)))
    && (forall i, j :: 0 <= i < j < |history| ==> Tag(history[i]) in Tags(history[j].lines))
  }

  lemma {:induction false} ParsedIsNotEmpty(text: string)
    requires Parse(text).Some?
    ensures text != ""
  {
  }

  lemma LaterIsNotBelow(earlier: Release, later: Release)
    requires Accepts(earlier.version, Tag(earlier), Tags(earlier.lines))
    requires Accepts(later.version, Tag(later), Tags(later.lines)) && Tag(earlier) in Tags(later.lines)
    ensures earlier.version == later.version || Precedes(Parse(earlier.version).value, Parse(later.version).value)
  {
    hide Precedes, Parse, Tags, Prefix, TagVersion, Tag;
    ParsedIsNotEmpty(earlier.version);
    ParsedIsNotEmpty(later.version);
    TagCarriesItsVersion(earlier);
    TagCarriesItsVersion(later);
    ParsedIsWellFormed(earlier.version);
    ParsedIsWellFormed(later.version);
  }

  /**
   Along a gated history precedence never falls, across both components, and two releases of equal
   precedence carry the same version text.
   */
  lemma HistoryNeverFalls(history: seq<Release>, i: nat, j: nat)
    requires GatedHistory(history) && i < j < |history|
    ensures var a, b := Parse(history[i].version).value, Parse(history[j].version).value;
            !Precedes(b, a) && (!Precedes(a, b) ==> history[i].version == history[j].version)
  {
    hide Precedes, Parse, Tags, Prefix;
    LaterIsNotBelow(history[i], history[j]);
    var a, b := Parse(history[i].version).value, Parse(history[j].version).value;
    PrecedenceIsStrict(a, b, a);
  }
}
