/** Parsed versions and their order, against section 11 of SemVer 2.0.0. */
module SemVer {
  import opened Wrappers
  import opened Text

  // ----- grammar -----

  predicate IsDigit(c: char) {
    '0' <= c <= '9'
  }

  predicate IsIdentifierChar(c: char) {
    IsDigit(c) || 'A' <= c <= 'Z' || 'a' <= c <= 'z' || c == '-'
  }

  predicate AllDigits(s: string) {
    s != "" && forall i :: 0 <= i < |s| ==> IsDigit(s[i])
  }

  /** A numeral without leading zeros. */
  predicate Numeric(s: string) {
    AllDigits(s) && (|s| == 1 || s[0] != '0')
  }

  predicate BuildIdentifier(s: string) {
    s != "" && forall i :: 0 <= i < |s| ==> IsIdentifierChar(s[i])
  }

  predicate Identifier(s: string) {
    BuildIdentifier(s) && (AllDigits(s) ==> Numeric(s))
  }

  function DigitValue(c: char): nat
    requires IsDigit(c)
  {
    c as int - '0' as int
  }

  function Value(s: string): nat
    requires forall i :: 0 <= i < |s| ==> IsDigit(s[i])
  {
    if s == "" then 0 else 10 * Value(s[..|s| - 1]) + DigitValue(s[|s| - 1])
  }

  datatype Version = Version(text: string, core: (nat, nat, nat), prerelease: Option<seq<string>>)

  /** Numerals of the core, pre-release identifiers and build identifiers of a version text. */
  datatype Parts = Parts(core: seq<string>, prerelease: Option<seq<string>>, build: Option<seq<string>>)

  predicate ValidParts(p: Parts) {
    && |p.core| == 3 && (forall i :: 0 <= i < 3 ==> Numeric(p.core[i]))
    && (p.prerelease.Some? ==>
          && p.prerelease.value != []
          && forall i :: 0 <= i < |p.prerelease.value| ==> Identifier(p.prerelease.value[i]))
    && (p.build.Some? ==>
          && p.build.value != []
          && forall i :: 0 <= i < |p.build.value| ==> BuildIdentifier(p.build.value[i]))
  }

  /** major.minor.patch[-prerelease][+build] */
  function Render(p: Parts): string
    requires ValidParts(p)
  {
    Join(p.core, '.') + (if p.prerelease.Some? then "-" + Join(p.prerelease.value, '.') else "")
    + (if p.build.Some? then "+" + Join(p.build.value, '.') else "")
  }

  function Dissect(text: string): Parts {
    var (head, hasBuild, build) := Cut(text, '+');
    var (core, hasPrerelease, prerelease) := Cut(head, '-');
    Parts(Split(core, '.'), if hasPrerelease then Some(Split(prerelease, '.')) else None,
          if hasBuild then Some(Split(build, '.')) else None)
  }

  function CoreNumbers(p: Parts): (nat, nat, nat)
    requires ValidParts(p)
  {
    (Value(p.core[0]), Value(p.core[1]), Value(p.core[2]))
  }

  function Parse(text: string): Option<Version> {
    var p := Dissect(text);
    if !ValidParts(p) then None else Some(Version(text, CoreNumbers(p), p.prerelease))
  }

  lemma {:induction false} JoinAvoids(parts: seq<string>, sep: char, c: char)
    requires parts != [] && c != sep && forall i :: 0 <= i < |parts| ==> c !in parts[i]
    ensures c !in Join(parts, sep)
    decreases |parts|
  {
    if |parts| <= 1 {
    } else {
      JoinAvoids(parts[1..], sep, c);
    }
  }

  /** Parsing finds the parts a text was rendered from, so it accepts exactly the grammar. */
  lemma DissectOfRender(p: Parts)
    requires ValidParts(p)
    ensures Dissect(Render(p)) == p
  {
    hide Join, Split, Cut;
    var core := Join(p.core, '.');
    JoinAvoids(p.core, '.', '-');
    JoinAvoids(p.core, '.', '+');
    SplitOfJoin(p.core, '.');
    var prerelease := if p.prerelease.Some? then Join(p.prerelease.value, '.') else "";
    if p.prerelease.Some? {
      JoinAvoids(p.prerelease.value, '.', '+');
      SplitOfJoin(p.prerelease.value, '.');
    }
    var head := core + (if p.prerelease.Some? then "-" + prerelease else "");
    var build := if p.build.Some? then Join(p.build.value, '.') else "";
    if p.build.Some? {
      SplitOfJoin(p.build.value, '.');
      assert Render(p) == head + "+" + build;
    } else {
      assert Render(p) == head;
    }
    CutFirst(head, build, '+');
    CutFirst(core, prerelease, '-');
    assert head == if p.prerelease.Some? then core + ['-'] + prerelease else core;
  }

  lemma RenderOfDissect(text: string)
    requires ValidParts(Dissect(text))
    ensures Render(Dissect(text)) == text
  {
    hide Join, Split, Cut, ValidParts;
    CutParts(text, '+');
    var (head, hasBuild, build) := Cut(text, '+');
    CutParts(head, '-');
    var (core, hasPrerelease, prerelease) := Cut(head, '-');
    JoinOfSplit(core, '.');
    JoinOfSplit(prerelease, '.');
    JoinOfSplit(build, '.');
  }

  /** A text is a version exactly when it is the rendering of valid parts, and then of one only. */
  lemma ParseAcceptsTheGrammar(text: string)
    ensures Parse(text).Some? <==> exists p :: ValidParts(p) && Render(p) == text
    ensures forall p :: ValidParts(p) && Render(p) == text ==>
              Parse(text) == Some(Version(text, CoreNumbers(p), p.prerelease))
  {
    hide ValidParts, Render, Dissect, CoreNumbers;
    if Parse(text).Some? {
      RenderOfDissect(text);
    }
    forall p | ValidParts(p) && Render(p) == text ensures Dissect(text) == p {
      DissectOfRender(p);
    }
  }

  // ----- numerals -----

  lemma {:induction false} NumeralIsPositive(s: string)
    requires AllDigits(s) && s[0] != '0'
    ensures Value(s) >= 1
    decreases |s|
  {
    if |s| <= 1 {
    } else {
      NumeralIsPositive(s[..|s| - 1]);
    }
  }

  /** Numerals without leading zeros are equal when their values are. */
  lemma {:induction false} NumeralsAreInjective(a: string, b: string)
    requires Numeric(a) && Numeric(b) && Value(a) == Value(b)
    ensures a == b
    decreases |a|
  {
    var front, back := a[..|a| - 1], b[..|b| - 1];
    var x, y := DigitValue(a[|a| - 1]), DigitValue(b[|b| - 1]);
    if |a| <= 1 {
    } else {
      NumeralIsPositive(front);
    }
    if |b| <= 1 {
    } else {
      NumeralIsPositive(back);
    }
    assert 10 * Value(front) + x == 10 * Value(back) + y;
    if |a| > 1 && |b| > 1 {
      NumeralsAreInjective(front, back);
      assert a == front + [a[|a| - 1]] && b == back + [b[|b| - 1]];
    }
  }

  // ----- section 11 -----

  /** What a pre-release identifier stands for. */
  datatype Field = Number(n: nat) | Word(text: string)

  function Meaning(id: string): Field {
    if AllDigits(id) then Number(Value(id)) else Word(id)
  }

  /** 11.4.1 to 11.4.3: numerically, in ASCII order, and numeric before alphanumeric. */
  predicate FieldBelow(a: Field, b: Field) {
    match (a, b)
    case (Number(m), Number(n)) => m < n
    case (Word(s), Word(t)) => TextBelow(s, t)
    case (Number(_), Word(_)) => true
    case (Word(_), Number(_)) => false
  }

  function Meanings(ids: seq<string>): (fields: seq<Field>)
    ensures |fields| == |ids| && forall i :: 0 <= i < |ids| ==> fields[i] == Meaning(ids[i])
  {
    seq(|ids|, i requires 0 <= i < |ids| => Meaning(ids[i]))
  }

  /** 11.4: left to right until a difference; 11.4.4: with all preceding equal, more fields rank higher. */
  predicate FieldsBelowAt(a: seq<Field>, b: seq<Field>, k: nat) {
    k <= |a| && k < |b| && a[..k] == b[..k] && (k == |a| || FieldBelow(a[k], b[k]))
  }

  predicate FieldsBelow(a: seq<Field>, b: seq<Field>) {
    exists k: nat :: k < |b| && FieldsBelowAt(a, b, k)
  }

  /** 11.2: major, minor and patch in that order. */
  predicate CoreBelow(a: (nat, nat, nat), b: (nat, nat, nat)) {
    a.0 < b.0 || (a.0 == b.0 && (a.1 < b.1 || (a.1 == b.1 && a.2 < b.2)))
  }

  /** Lower precedence; 11.3: a pre-release ranks below its normal version. */
  predicate Precedes(a: Version, b: Version) {
    || CoreBelow(a.core, b.core)
    || (&& a.core == b.core && a.prerelease.Some?
        && (b.prerelease.None? || FieldsBelow(Meanings(a.prerelease.value), Meanings(b.prerelease.value))))
  }

  // ----- the comparison -----

  predicate WellFormed(v: Version) {
    v.prerelease.Some? ==> forall i :: 0 <= i < |v.prerelease.value| ==> Identifier(v.prerelease.value[i])
  }

  lemma ParsedIsWellFormed(text: string)
    requires Parse(text).Some?
    ensures WellFormed(Parse(text).value) && Parse(text).value.text == text
  {
  }

  /** Identifiers mean the same only if they are the same text. */
  lemma MeaningIsInjective(a: string, b: string)
    requires Identifier(a) && Identifier(b)
    ensures Meaning(a) == Meaning(b) <==> a == b
  {
    if Meaning(a) == Meaning(b) && AllDigits(a) {
      NumeralsAreInjective(a, b);
    }
  }

  /** The scan of __lt__ over two parsed versions decides section 11 precedence. */
  method LessThan(a: Version, b: Version) returns (r: bool)
    requires WellFormed(a) && WellFormed(b)
    ensures r <==> Precedes(a, b)
  {
    if a.core != b.core {
      return CoreBelow(a.core, b.core);
    }
    if a.prerelease.None? {
      return false;
    }
    if b.prerelease.None? {
      return true;
    }
    var left, right := a.prerelease.value, b.prerelease.value;
    ghost var lefts, rights := Meanings(left), Meanings(right);
    var count := if |left| < |right| then |left| else |right|;
    for index := 0 to count
      invariant lefts[..index] == rights[..index]
    {
      if left[index] == right[index] {
        continue;
      }
      MeaningIsInjective(left[index], right[index]);
      FirstDifferenceDecides(lefts, rights, index);
      if AllDigits(left[index]) && AllDigits(right[index]) {
        return Value(left[index]) < Value(right[index]);
      }
      if AllDigits(left[index]) != AllDigits(right[index]) {
        return AllDigits(left[index]);
      }
      return TextBelow(left[index], right[index]);
    }
    PrefixDecides(lefts, rights, count);
    return |left| < |right|;
  }

  lemma PrefixAgrees(a: seq<Field>, b: seq<Field>, k: nat)
    requires k <= |a| && k <= |b| && a[..k] == b[..k]
    ensures forall i :: 0 <= i < k ==> a[i] == b[i]
  {
    forall i | 0 <= i < k ensures a[i] == b[i] {
      assert a[i] == a[..k][i] && b[i] == b[..k][i];
    }
  }

  lemma FirstDifferenceDecides(a: seq<Field>, b: seq<Field>, k: nat)
    requires k < |a| && k < |b| && a[..k] == b[..k] && a[k] != b[k]
    ensures FieldsBelow(a, b) <==> FieldBelow(a[k], b[k])
  {
    hide FieldBelow;
    if FieldBelow(a[k], b[k]) {
      assert FieldsBelowAt(a, b, k);
    }
    if FieldsBelow(a, b) {
      var j: nat :| j < |b| && FieldsBelowAt(a, b, j);
      PrefixAgrees(a, b, j);
      PrefixAgrees(a, b, k);
      if j < k {
        FieldIrreflexive(a[j]);
      }
    }
  }

  lemma PrefixDecides(a: seq<Field>, b: seq<Field>, count: nat)
    requires count == (if |a| < |b| then |a| else |b|) && a[..count] == b[..count]
    ensures FieldsBelow(a, b) <==> |a| < |b|
  {
    hide FieldBelow;
    if |a| < |b| {
      assert FieldsBelowAt(a, b, |a|);
    }
    if FieldsBelow(a, b) {
      var j: nat :| j < |b| && FieldsBelowAt(a, b, j);
      PrefixAgrees(a, b, count);
      if j < |a| {
        FieldIrreflexive(a[j]);
      }
    }
  }

  // ----- a strict weak order -----

  lemma FieldIrreflexive(a: Field)
    ensures !FieldBelow(a, a)
  {
    if a.Word? {
      TextOrder(a.text, a.text, a.text);
    }
  }

  lemma FieldOrder(a: Field, b: Field, c: Field)
    ensures FieldBelow(a, b) && FieldBelow(b, c) ==> FieldBelow(a, c)
    ensures a == b || FieldBelow(a, b) || FieldBelow(b, a)
  {
    if a.Word? && b.Word? {
      TextOrder(a.text, b.text, if c.Word? then c.text else "");
    }
  }

  lemma FieldsTransitive(a: seq<Field>, b: seq<Field>, c: seq<Field>)
    requires FieldsBelow(a, b) && FieldsBelow(b, c)
    ensures FieldsBelow(a, c)
  {
    hide FieldBelow;
    var j: nat :| j < |b| && FieldsBelowAt(a, b, j);
    var k: nat :| k < |c| && FieldsBelowAt(b, c, k);
    var m := if j < k then j else k;
    assert a[..m] == a[..j][..m] && b[..m] == b[..j][..m] == b[..k][..m] && c[..m] == c[..k][..m];
    if j < k {
      assert b[j] == b[..k][j] == c[..k][j] == c[j];
    } else if k < j {
      assert a[k] == a[..j][k] == b[..j][k] == b[k];
    } else if j < |a| && k < |b| {
      FieldOrder(a[j], b[j], c[j]);
    }
    assert FieldsBelowAt(a, c, m);
  }

  lemma {:induction false} FieldsTotal(a: seq<Field>, b: seq<Field>, k: nat)
    requires k <= |a| && k <= |b| && a[..k] == b[..k] && a != b
    ensures FieldsBelow(a, b) || FieldsBelow(b, a)
    decreases |a| - k
  {
    hide FieldBelow;
    if k == |a| || k == |b| {
      assert a == a[..k] || b == b[..k];
      if k < |b| {
        assert FieldsBelowAt(a, b, k);
      } else {
        assert FieldsBelowAt(b, a, k);
      }
    } else if a[k] == b[k] {
      assert a[..k + 1] == a[..k] + [a[k]] && b[..k + 1] == b[..k] + [b[k]];
      FieldsTotal(a, b, k + 1);
    } else {
      FieldOrder(a[k], b[k], a[k]);
      assert FieldsBelowAt(a, b, k) || FieldsBelowAt(b, a, k);
    }
  }

  lemma MeaningsInjective(a: seq<string>, b: seq<string>)
    requires forall i :: 0 <= i < |a| ==> Identifier(a[i])
    requires forall i :: 0 <= i < |b| ==> Identifier(b[i])
    requires Meanings(a) == Meanings(b)
    ensures a == b
  {
    hide Identifier, Meaning;
    forall i | 0 <= i < |a| ensures a[i] == b[i] {
      assert Meanings(a)[i] == Meanings(b)[i];
      MeaningIsInjective(a[i], b[i]);
    }
  }

  /** Precedence is irreflexive and transitive. */
  lemma PrecedenceIsStrict(a: Version, b: Version, c: Version)
    ensures !Precedes(a, a)
    ensures Precedes(a, b) && Precedes(b, c) ==> Precedes(a, c)
  {
    hide FieldsBelow, Meanings;
    if a.prerelease.Some? {
      FieldsIrreflexive(Meanings(a.prerelease.value));
      if Precedes(a, b) && Precedes(b, c) && a.core == b.core == c.core && c.prerelease.Some? {
        FieldsTransitive(Meanings(a.prerelease.value), Meanings(b.prerelease.value), Meanings(c.prerelease.value));
      }
    }
  }

  lemma FieldsIrreflexive(a: seq<Field>)
    ensures !FieldsBelow(a, a)
  {
    PrefixDecides(a, a, |a|);
  }

  /**
   Two well-formed versions are incomparable exactly when core and pre-release are identical, so
   incomparability is an equivalence and precedence a strict weak order.
   */
  lemma IncomparableIffSame(a: Version, b: Version)
    requires WellFormed(a) && WellFormed(b)
    ensures !Precedes(a, b) && !Precedes(b, a) <==> a.core == b.core && a.prerelease == b.prerelease
  {
    hide FieldsBelow, Meanings, Identifier;
    PrecedenceIsStrict(a, a, a);
    PrecedenceIsStrict(b, b, b);
    if a.core == b.core && a.prerelease.Some? && b.prerelease.Some? {
      var x, y := Meanings(a.prerelease.value), Meanings(b.prerelease.value);
      if x == y {
        MeaningsInjective(a.prerelease.value, b.prerelease.value);
      } else {
        FieldsTotal(x, y, 0);
      }
    }
  }
}
