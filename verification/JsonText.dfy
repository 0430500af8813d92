/** The canonical text of a JSON value: sorted keys, no spaces, only the necessary escapes. */
module JsonText {
  import opened Text
  import opened JsonPointer

  // ----- strings -----

  function HexDigit(n: nat): char
    requires n < 16
  {
    if n < 10 then '0' + n as char else 'a' + (n - 10) as char
  }

  predicate Escapes(c: char) {
    c < ' ' || c == '\"' || c == '\\'
  }

  function EscapedChar(c: char): string {
    if c == '\"' then "\\\""
    else if c == '\\' then "\\\\"
    else if c == '\n' then "\\n"
    else if c == '\r' then "\\r"
    else if c == '\t' then "\\t"
    else if c as int == 8 then "\\b"
    else if c as int == 12 then "\\f"
    else if c < ' ' then "\\u00" + [HexDigit(c as int / 16), HexDigit(c as int % 16)]
    else [c]
  }

  function EscapedText(s: string): string {
    if s == "" then "" else EscapedChar(s[0]) + EscapedText(s[1..])
  }

  function Quoted(s: string): string {
    "\"" + EscapedText(s) + "\""
  }

  // ----- sorted keys -----

  predicate IsFirst(keys: set<string>, first: string) {
    first in keys && forall k :: k in keys && k != first ==> TextBelow(first, k)
  }

  lemma {:induction false} FirstExists(keys: set<string>) returns (first: string)
    requires keys != {}
    ensures IsFirst(keys, first)
  {
    var pick :| pick in keys;
    if keys == {pick} {
      first := pick;
    } else {
      var other := FirstExists(keys - {pick});
      TextOrder(pick, other, pick);
      first := if TextBelow(pick, other) then pick else other;
      forall k | k in keys && k != first ensures TextBelow(first, k) {
        TextOrder(first, other, k);
      }
    }
  }

  lemma FirstIsUnique(keys: set<string>, a: string, b: string)
    requires IsFirst(keys, a) && IsFirst(keys, b)
    ensures a == b
  {
    TextOrder(a, b, a);
  }

  function First(keys: set<string>): (first: string)
    requires keys != {}
    ensures IsFirst(keys, first)
  {
    assert exists first :: IsFirst(keys, first) by {
      var first := FirstExists(keys);
    }
    assert forall a, b :: IsFirst(keys, a) && IsFirst(keys, b) ==> a == b by {
      forall a, b | IsFirst(keys, a) && IsFirst(keys, b) ensures a == b {
        FirstIsUnique(keys, a, b);
      }
    }
    var first :| IsFirst(keys, first);
    first
  }

  function Sorted(keys: set<string>): (list: seq<string>)
    ensures forall k :: k in list <==> k in keys
    ensures forall i, j :: 0 <= i < j < |list| ==> TextBelow(list[i], list[j])
  {
    if keys == {} then [] else
    var first := First(keys);
    [first] + Sorted(keys - {first})
  }

  // ----- values -----

  /** The text of a value; number writes the numbers. */
  function Dump(v: Json, number: real -> string): string
    decreases v, 1, 0
  {
    match v
    case Null => "null"
    case Bool(b) => if b then "true" else "false"
    case Number(n) => number(n)
    case Str(s) => Quoted(s)
    case Arr(items) => "[" + DumpItems(v, 0, number) + "]"
    case Obj(fields) => "{" + DumpMembers(v, Sorted(fields.Keys), number) + "}"
  }

  function DumpItems(v: Json, from: nat, number: real -> string): string
    requires v.Arr? && from <= |v.items|
    decreases v, 0, |v.items| - from
  {
    if from == |v.items| then ""
    else (if from == 0 then "" else ",") + Dump(v.items[from], number) + DumpItems(v, from + 1, number)
  }

  function DumpMembers(v: Json, keys: seq<string>, number: real -> string): string
    requires v.Obj? && forall k :: k in keys ==> k in v.fields
    decreases v, 0, |keys|
  {
    if keys == [] then ""
    else
      Quoted(keys[0]) + ":" + Dump(v.fields[keys[0]], number) + (if |keys| == 1 then "" else ",")
      + DumpMembers(v, keys[1..], number)
  }

  // ----- finding words in the text -----

  predicate Contains(text: string, word: string) {
    exists i :: 0 <= i <= |text| && word <= text[i..]
  }

  /** A word that reads the same in a JSON text. */
  predicate PlainWord(word: string) {
    forall i :: 0 <= i < |word| ==> !Escapes(word[i])
  }

  lemma ContainsAround(before: string, text: string, after: string, word: string)
    requires Contains(text, word)
    ensures Contains(before + text + after, word)
  {
    var i :| 0 <= i <= |text| && word <= text[i..];
    var whole := before + text + after;
    assert whole[|before| + i..] == text[i..] + after;
  }

  lemma {:induction false} PlainPrefix(text: string, word: string)
    requires word <= text && PlainWord(word)
    ensures word <= EscapedText(text)
    decreases |word|
  {
    if word == "" {
    } else {
      assert text[0] == word[0] && !Escapes(word[0]);
      assert word[1..] <= text[1..];
      PlainPrefix(text[1..], word[1..]);
      assert word == [word[0]] + word[1..];
    }
  }

  lemma {:induction false} EscapedContains(text: string, word: string)
    requires Contains(text, word) && PlainWord(word)
    ensures Contains(EscapedText(text), word)
    decreases |text|
  {
    var i :| 0 <= i <= |text| && word <= text[i..];
    if i == 0 {
      assert text[0..] == text;
      PlainPrefix(text, word);
      assert EscapedText(text)[0..] == EscapedText(text);
    } else {
      assert text[i..] == text[1..][i - 1..];
      EscapedContains(text[1..], word);
      ContainsAround(EscapedChar(text[0]), EscapedText(text[1..]), "", word);
      assert EscapedChar(text[0]) + EscapedText(text[1..]) + "" == EscapedText(text);
    }
  }

  lemma QuotedContains(text: string, word: string)
    requires Contains(text, word) && PlainWord(word)
    ensures Contains(Quoted(text), word)
  {
    EscapedContains(text, word);
    ContainsAround("\"", EscapedText(text), "\"", word);
  }

  /** All keys and strings of a value. */
  function Vocabulary(v: Json): set<string> {
    match v
    case Str(s) => {s}
    case Obj(fields) => fields.Keys + set k, t | k in fields && t in Vocabulary(fields[k]) :: t
    case Arr(items) => set i, t | 0 <= i < |items| && t in Vocabulary(items[i]) :: t
    case _ => {}
  }

  /** A plain word inside any key or string shows in the text of the value. */
  lemma {:induction false} DumpShows(v: Json, number: real -> string, text: string, word: string)
    requires text in Vocabulary(v) && Contains(text, word) && PlainWord(word)
    ensures Contains(Dump(v, number), word)
    decreases v, 1, 0
  {
    hide Contains, PlainWord, Quoted, Sorted;
    match v
    case Str(s) => QuotedContains(s, word);
    case Arr(items) =>
      var i :| 0 <= i < |items| && text in Vocabulary(items[i]);
      ItemShows(v, 0, i, number, text, word);
      ContainsAround("[", DumpItems(v, 0, number), "]", word);
    case Obj(fields) =>
      var k :| k in fields && (text == k || text in Vocabulary(fields[k]));
      var keys := Sorted(fields.Keys);
      assert k in keys;
      var i :| 0 <= i < |keys| && keys[i] == k;
      MemberShows(v, keys, i, number, text, word);
      ContainsAround("{", DumpMembers(v, keys, number), "}", word);
  }

  lemma {:induction false} ItemShows(v: Json, from: nat, i: nat, number: real -> string, text: string, word: string)
    requires v.Arr? && from <= i < |v.items|
    requires text in Vocabulary(v.items[i]) && Contains(text, word) && PlainWord(word)
    ensures Contains(DumpItems(v, from, number), word)
    decreases v, 0, i - from
  {
    hide Contains, PlainWord;
    var comma := if from == 0 then "" else ",";
    var rest := DumpItems(v, from + 1, number);
    if from == i {
      DumpShows(v.items[i], number, text, word);
      ContainsAround(comma, Dump(v.items[i], number), rest, word);
    } else {
      ItemShows(v, from + 1, i, number, text, word);
      ContainsAround(comma + Dump(v.items[from], number), rest, "", word);
      assert comma + Dump(v.items[from], number) + rest + "" == DumpItems(v, from, number);
    }
  }

  lemma {:induction false} MemberShows(v: Json, keys: seq<string>, i: nat, number: real -> string,
                                       text: string, word: string)
    requires v.Obj? && i < |keys| && forall k :: k in keys ==> k in v.fields
    requires text == keys[i] || text in Vocabulary(v.fields[keys[i]])
    requires Contains(text, word) && PlainWord(word)
    ensures Contains(DumpMembers(v, keys, number), word)
    decreases v, 0, i
  {
    hide Contains, PlainWord, Quoted;
    var name, value := Quoted(keys[0]), Dump(v.fields[keys[0]], number);
    var comma := if |keys| == 1 then "" else ",";
    var rest := DumpMembers(v, keys[1..], number);
    assert DumpMembers(v, keys, number) == name + ":" + value + comma + rest;
    if i > 0 {
      MemberShows(v, keys[1..], i - 1, number, text, word);
      ContainsAround(name + ":" + value + comma, rest, "", word);
      assert name + ":" + value + comma + rest + "" == DumpMembers(v, keys, number);
    } else if text == keys[0] {
      QuotedContains(text, word);
      ContainsAround("", name, ":" + value + comma + rest, word);
      assert "" + name + (":" + value + comma + rest) == DumpMembers(v, keys, number);
    } else {
      DumpShows(v.fields[keys[0]], number, text, word);
      ContainsAround(name + ":", value, comma + rest, word);
      assert name + ":" + value + (comma + rest) == DumpMembers(v, keys, number);
    }
  }

  // ----- characters that do not occur -----

  predicate Numberless(v: Json) {
    match v
    case Number(_) => false
    case Obj(fields) => forall k :: k in fields ==> Numberless(fields[k])
    case Arr(items) => forall i :: 0 <= i < |items| ==> Numberless(items[i])
    case _ => true
  }

  /** An upper-case letter: no punctuation, literal or escape holds one. */
  predicate Capital(c: char) {
    'A' <= c <= 'Z'
  }

  lemma {:induction false} EscapedAvoids(s: string, c: char)
    requires Capital(c) && c !in s
    ensures c !in EscapedText(s)
  {
    if s == "" {
    } else {
      EscapedAvoids(s[1..], c);
    }
  }

  lemma {:induction false} DumpAvoids(v: Json, number: real -> string, c: char)
    requires Capital(c) && Numberless(v) && forall t :: t in Vocabulary(v) ==> c !in t
    ensures c !in Dump(v, number)
    decreases v, 1, 0
  {
    hide Sorted;
    match v
    case Str(s) => EscapedAvoids(s, c);
    case Arr(items) => ItemsAvoid(v, 0, number, c);
    case Obj(fields) => MembersAvoid(v, Sorted(fields.Keys), number, c);
    case _ =>
  }

  lemma {:induction false} ItemsAvoid(v: Json, from: nat, number: real -> string, c: char)
    requires v.Arr? && from <= |v.items|
    requires Capital(c) && Numberless(v) && forall t :: t in Vocabulary(v) ==> c !in t
    ensures c !in DumpItems(v, from, number)
    decreases v, 0, |v.items| - from
  {
    if from == |v.items| {
    } else {
      DumpAvoids(v.items[from], number, c);
      ItemsAvoid(v, from + 1, number, c);
    }
  }

  lemma {:induction false} MembersAvoid(v: Json, keys: seq<string>, number: real -> string, c: char)
    requires v.Obj? && forall k :: k in keys ==> k in v.fields
    requires Capital(c) && Numberless(v) && forall t :: t in Vocabulary(v) ==> c !in t
    ensures c !in DumpMembers(v, keys, number)
    decreases v, 0, |keys|
  {
    if keys == [] {
    } else {
      EscapedAvoids(keys[0], c);
      DumpAvoids(v.fields[keys[0]], number, c);
      MembersAvoid(v, keys[1..], number, c);
    }
  }

  lemma ContainedCharacters(text: string, word: string, i: nat)
    requires Contains(text, word) && i < |word|
    ensures word[i] in text
  {
    var k :| 0 <= k <= |text| && word <= text[k..];
    assert text[k..][i] == text[k + i];
  }
}
