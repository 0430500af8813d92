/** Splitting text at a separator, and the order of text by code points. */
module Text {
  function Split(s: string, sep: char): (parts: seq<string>)
    ensures |parts| >= 1
    ensures forall i :: 0 <= i < |parts| ==> sep !in parts[i]
  {
    if s == "" then [""]
    else
      var rest := Split(s[1..], sep);
      if s[0] == sep then [""] + rest else [[s[0]] + rest[0]] + rest[1..]
  }

  function Join(parts: seq<string>, sep: char): string
    requires parts != []
  {
    if |parts| == 1 then parts[0] else parts[0] + [sep] + Join(parts[1..], sep)
  }

  lemma {:induction false} SplitFirst(a: string, b: string, sep: char)
    requires sep !in a
    ensures Split(a + [sep] + b, sep) == [a] + Split(b, sep)
    decreases |a|
  {
    if a == "" {
      assert (a + [sep] + b)[1..] == b;
    } else {
      SplitFirst(a[1..], b, sep);
      assert (a + [sep] + b)[1..] == a[1..] + [sep] + b;
      assert [a[0]] + a[1..] == a;
    }
  }

  lemma {:induction false} SplitPlain(a: string, sep: char)
    ensures Split(a, sep) == [a] <==> sep !in a
    ensures |Split(a, sep)| == 1 <==> sep !in a
    decreases |a|
  {
    if a == "" {
    } else {
      SplitPlain(a[1..], sep);
      assert [a[0]] + a[1..] == a;
    }
  }

  lemma {:induction false} JoinOfSplit(s: string, sep: char)
    ensures Join(Split(s, sep), sep) == s
    decreases |s|
  {
    if s == "" {
    } else {
      JoinOfSplit(s[1..], sep);
      var rest := Split(s[1..], sep);
      assert [s[0]] + s[1..] == s;
      if s[0] == sep {
        assert ([""] + rest)[1..] == rest;
      } else if |rest| > 1 {
        assert ([[s[0]] + rest[0]] + rest[1..])[1..] == rest[1..];
      }
    }
  }

  lemma {:induction false} SplitOfJoin(parts: seq<string>, sep: char)
    requires parts != [] && forall i :: 0 <= i < |parts| ==> sep !in parts[i]
    ensures Split(Join(parts, sep), sep) == parts
    decreases |parts|
  {
    if |parts| == 1 {
      SplitPlain(parts[0], sep);
    } else {
      SplitOfJoin(parts[1..], sep);
      SplitFirst(parts[0], Join(parts[1..], sep), sep);
    }
  }

  /** The text before the first separator, and the text after it if there is one. */
  function Cut(s: string, sep: char): (string, bool, string) {
    if s == "" then ("", false, "")
    else if s[0] == sep then ("", true, s[1..])
    else
      var (a, found, b) := Cut(s[1..], sep);
      ([s[0]] + a, found, b)
  }

  lemma {:induction false} CutParts(s: string, sep: char)
    ensures var (a, found, b) := Cut(s, sep);
            sep !in a && s == a + (if found then [sep] + b else "") && (!found ==> b == "")
    decreases |s|
  {
    if s != "" && s[0] != sep {
      CutParts(s[1..], sep);
    }
  }

  lemma {:induction false} CutFirst(a: string, b: string, sep: char)
    requires sep !in a
    ensures Cut(a + [sep] + b, sep) == (a, true, b) && Cut(a, sep) == (a, false, "")
    decreases |a|
  {
    if a == "" {
      assert (a + [sep] + b)[1..] == b;
    } else {
      CutFirst(a[1..], b, sep);
      assert (a + [sep] + b)[1..] == a[1..] + [sep] + b;
      assert [a[0]] + a[1..] == a;
    }
  }

  /** Lexicographic order. */
  predicate TextBelow(a: string, b: string) {
    b != "" && (a == "" || a[0] < b[0] || (a[0] == b[0] && TextBelow(a[1..], b[1..])))
  }

  lemma {:induction false} TextOrder(a: string, b: string, c: string)
    ensures !TextBelow(a, a)
    ensures TextBelow(a, b) && TextBelow(b, c) ==> TextBelow(a, c)
    ensures a == b || TextBelow(a, b) || TextBelow(b, a)
    decreases |a| + |b| + |c|
  {
    if a == "" && b == "" && c == "" {
    } else {
      TextOrder(if a == "" then a else a[1..], if b == "" then b else b[1..], if c == "" then c else c[1..]);
      assert a != "" ==> a == [a[0]] + a[1..];
      assert b != "" ==> b == [b[0]] + b[1..];
    }
  }
}
