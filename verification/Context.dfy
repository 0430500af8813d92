/** The canonical context bytes authenticated with provider material, and the parser that inverts them. */
module Context {
  import opened Wrappers
  import opened Bytes

  datatype ValueError = TooLong | InvalidValue

  const MAX_CANONICAL_LEN: nat := 2_048

  // ----- bounded text -----

  predicate Lowercase(b: Byte) { 'a' as int <= b <= 'z' as int }
  predicate Decimal(b: Byte) { '0' as int <= b <= '9' as int }
  predicate Uppercase(b: Byte) { 'A' as int <= b <= 'Z' as int }

  predicate IdentifierByte(b: Byte) {
    Lowercase(b) || Uppercase(b) || Decimal(b) || b in {'.' as int, '_' as int, ':' as int, '-' as int}
  }

  predicate LabelByte(b: Byte) {
    Lowercase(b) || Decimal(b) || b in {'.' as int, '_' as int, '-' as int}
  }

  predicate ProviderByte(b: Byte) {
    Lowercase(b) || Decimal(b) || b in {'_' as int, '-' as int}
  }

  predicate ValidIdentifier(s: seq<Byte>) { 0 < |s| <= 128 && forall i :: 0 <= i < |s| ==> IdentifierByte(s[i]) }
  predicate ValidLabel(s: seq<Byte>) { 0 < |s| <= 64 && forall i :: 0 <= i < |s| ==> LabelByte(s[i]) }
  predicate ValidProvider(s: seq<Byte>) {
    0 < |s| <= 64 && Lowercase(s[0]) && forall i :: 0 < i < |s| ==> ProviderByte(s[i])
  }

  type Identifier = s: seq<Byte> | ValidIdentifier(s) witness ['a' as int]
  type Label = s: seq<Byte> | ValidLabel(s) witness ['a' as int]
  type ProviderName = s: seq<Byte> | ValidProvider(s) witness ['a' as int]

  // ----- contexts -----

  datatype Scope = Deployment | Project(id: Identifier)
  datatype MaterialKind = SigningKey | ConfigurationSecret

  type Generation = n: nat | n < 0x1_0000_0000_0000_0000
  type FormatVersion = n: nat | 0 < n < 0x1_0000 witness 1

  datatype Parts = Parts(deployment: Identifier, scope: Scope, material: Identifier, kind: MaterialKind,
                         ownerKind: Label, owner: Identifier, generation: Generation, purpose: Label,
                         provider: ProviderName, format: FormatVersion)

  // ----- encoding -----

  /** "owlauth-key-provider-context\0" */
  const DOMAIN: seq<Byte> :=
    [111, 119, 108, 97, 117, 116, 104, 45, 107, 101, 121, 45, 112, 114, 111, 118, 105, 100, 101, 114, 45, 99, 111,
     110, 116, 101, 120, 116, 0]

  const HEADER: seq<Byte> := DOMAIN + BigEndian(1, 2)

  function Field(tag: Byte, value: seq<Byte>): seq<Byte> {
    [tag] + BigEndian(|value|, 4) + value
  }

  function Fields(tags: seq<Byte>, values: seq<seq<Byte>>): seq<Byte>
    requires |tags| == |values|
  {
    if tags == [] then [] else Field(tags[0], values[0]) + Fields(tags[1..], values[1..])
  }

  function KindByte(k: MaterialKind): Byte {
    match k
    case SigningKey => 1
    case ConfigurationSecret => 2
  }

  const SCOPE_TAGS: seq<Byte> := [1, 2]
  const PROJECT_TAGS: seq<Byte> := [3]
  const OWNER_TAGS: seq<Byte> := [4, 5, 6, 7, 8, 9, 10, 11]

  function ScopeValues(p: Parts): (v: seq<seq<Byte>>)
    ensures |v| == |SCOPE_TAGS|
  {
    [p.deployment, [if p.scope.Deployment? then 0 else 1]]
  }

  function OwnerValues(p: Parts): (v: seq<seq<Byte>>)
    ensures |v| == |OWNER_TAGS|
  {
    [p.material, [KindByte(p.kind)], p.ownerKind, p.owner, BigEndian(p.generation, 8), p.purpose, p.provider,
     BigEndian(p.format, 2)]
  }

  /** Everything before tag 4. */
  function EncodeScope(p: Parts): seq<Byte> {
    var scoped := HEADER + Field(1, p.deployment) + Field(2, [if p.scope.Deployment? then 0 else 1]);
    if p.scope.Deployment? then scoped else scoped + Field(3, p.scope.id)
  }

  /** The canonical bytes, field by field in tag order. */
  function Encode(p: Parts): seq<Byte> {
    EncodeScope(p) + Field(4, p.material) + Field(5, [KindByte(p.kind)]) + Field(6, p.ownerKind) + Field(7, p.owner)
    + Field(8, BigEndian(p.generation, 8)) + Field(9, p.purpose) + Field(10, p.provider)
    + Field(11, BigEndian(p.format, 2))
  }

  function ProjectFields(p: Parts): seq<Byte> {
    if p.scope.Deployment? then [] else Fields(PROJECT_TAGS, [p.scope.id])
  }

  lemma ScopeShape(p: Parts)
    ensures EncodeScope(p) == HEADER + (Fields(SCOPE_TAGS, ScopeValues(p)) + ProjectFields(p))
  {
    hide Field, Fields;
    var s := ScopeValues(p);
    FieldsStep(SCOPE_TAGS, s, 0);
    FieldsStep(SCOPE_TAGS, s, 1);
    FieldsEnd(SCOPE_TAGS, s);
    if p.scope.Project? {
      FieldsStep(PROJECT_TAGS, [p.scope.id], 0);
      FieldsEnd(PROJECT_TAGS, [p.scope.id]);
    }
  }

  lemma EncodeShape(p: Parts)
    ensures Encode(p) == EncodeScope(p) + Fields(OWNER_TAGS, OwnerValues(p))
  {
    hide Field, Fields, EncodeScope;
    var o := OwnerValues(p);
    OwnerShape(o);
    AppendEight(EncodeScope(p), Field(4, o[0]), Field(5, o[1]), Field(6, o[2]), Field(7, o[3]), Field(8, o[4]),
                Field(9, o[5]), Field(10, o[6]), Field(11, o[7]));
  }

  lemma OwnerShape(o: seq<seq<Byte>>)
    requires |o| == |OWNER_TAGS|
    ensures Fields(OWNER_TAGS, o) ==
            Field(4, o[0]) + (Field(5, o[1]) + (Field(6, o[2]) + (Field(7, o[3]) + (Field(8, o[4]) + (Field(9, o[5])
            + (Field(10, o[6]) + Field(11, o[7])))))))
  {
    hide Field, Fields;
    FieldsStep(OWNER_TAGS, o, 0);
    FieldsStep(OWNER_TAGS, o, 1);
    FieldsStep(OWNER_TAGS, o, 2);
    FieldsStep(OWNER_TAGS, o, 3);
    FieldsStep(OWNER_TAGS, o, 4);
    FieldsStep(OWNER_TAGS, o, 5);
    FieldsStep(OWNER_TAGS, o, 6);
    FieldsStep(OWNER_TAGS, o, 7);
    FieldsEnd(OWNER_TAGS, o);
    assert Field(11, o[7]) + [] == Field(11, o[7]);
  }

  lemma AppendEight(s: seq<Byte>, a: seq<Byte>, b: seq<Byte>, c: seq<Byte>, d: seq<Byte>, e: seq<Byte>, f: seq<Byte>,
                    g: seq<Byte>, h: seq<Byte>)
    ensures s + a + b + c + d + e + f + g + h == s + (a + (b + (c + (d + (e + (f + (g + h)))))))
  {
    assert f + g + h == f + (g + h);
    assert d + e + (f + (g + h)) == d + (e + (f + (g + h)));
    assert s + a + b + c == s + (a + (b + c));
  }

  lemma FieldsStep(tags: seq<Byte>, values: seq<seq<Byte>>, k: nat)
    requires |tags| == |values| && k < |tags|
    ensures Fields(tags[k..], values[k..]) == Field(tags[k], values[k]) + Fields(tags[k + 1..], values[k + 1..])
  {
    assert tags[k..][1..] == tags[k + 1..] && values[k..][1..] == values[k + 1..];
  }

  lemma FieldsEnd(tags: seq<Byte>, values: seq<seq<Byte>>)
    requires |tags| == |values|
    ensures Fields(tags[|tags|..], values[|tags|..]) == [] && tags[0..] == tags && values[0..] == values
  {
  }

  /** The growing output of the encoder. */
  class Output {
    var bytes: seq<Byte>

    constructor ()
      ensures bytes == []
    {
      bytes := [];
    }

    method Extend(more: seq<Byte>)
      modifies this
      ensures bytes == old(bytes) + more
    {
      bytes := bytes + more;
    }

    /** Tag, 32-bit length and value; refused, with nothing written, if the length does not fit. */
    method PushField(tag: Byte, value: seq<Byte>) returns (r: Result<(), ValueError>)
      modifies this
      ensures r.Ok? <==> |value| < U32_BOUND
      ensures r.Ok? ==> bytes == old(bytes) + Field(tag, value)
      ensures r.Err? ==> r.error == TooLong && bytes == old(bytes)
    {
      if |value| >= U32_BOUND {
        return Err(TooLong);
      }
      bytes := bytes + [tag];
      bytes := bytes + BigEndian(|value|, 4);
      bytes := bytes + value;
      assert bytes == old(bytes) + Field(tag, value);
      r := Ok(());
    }
  }

  lemma ValuesAreShort(p: Parts)
    ensures forall i :: 0 <= i < |SCOPE_TAGS| ==> |ScopeValues(p)[i]| < U32_BOUND
    ensures forall i :: 0 <= i < |OWNER_TAGS| ==> |OwnerValues(p)[i]| < U32_BOUND
    ensures |p.deployment| <= 128 && |p.material| <= 128 && |p.ownerKind| <= 64 && |p.owner| <= 128
    ensures |p.purpose| <= 64 && |p.provider| <= 64 && (p.scope.Project? ==> |p.scope.id| <= 128)
  {
  }

  /** The encoder writes the canonical bytes, field after field, and no field is too long. */
  method EncodeV1(p: Parts) returns (bytes: seq<Byte>)
    ensures bytes == Encode(p)
  {
    hide Field, BigEndian, KindByte, ValidIdentifier, ValidLabel, ValidProvider;
    ValuesAreShort(p);
    var output := new Output();
    output.Extend(DOMAIN);
    output.Extend(BigEndian(1, 2));
    assert output.bytes == HEADER;
    var r := output.PushField(1, p.deployment);
    assert r.Ok?;
    match p.scope {
      case Deployment =>
        r := output.PushField(2, [0]);
        assert r.Ok?;
      case Project(id) =>
        r := output.PushField(2, [1]);
        assert r.Ok?;
        r := output.PushField(3, id);
        assert r.Ok?;
    }
    r := output.PushField(4, p.material);
    assert r.Ok?;
    r := output.PushField(5, [KindByte(p.kind)]);
    assert r.Ok?;
    r := output.PushField(6, p.ownerKind);
    assert r.Ok?;
    r := output.PushField(7, p.owner);
    assert r.Ok?;
    r := output.PushField(8, BigEndian(p.generation, 8));
    assert r.Ok?;
    r := output.PushField(9, p.purpose);
    assert r.Ok?;
    r := output.PushField(10, p.provider);
    assert r.Ok?;
    r := output.PushField(11, BigEndian(p.format, 2));
    assert r.Ok?;
    bytes := output.bytes;
  }

  /** Construction: a context and its canonical bytes. */
  function Construct(p: Parts): Result<(Parts, seq<Byte>), ValueError> {
    if p.generation == 0 then Err(InvalidValue)
    else if |Encode(p)| > MAX_CANONICAL_LEN then Err(TooLong)
    else Ok((p, Encode(p)))
  }

  lemma {:induction false} FieldsLength(tags: seq<Byte>, values: seq<seq<Byte>>, bound: seq<nat>)
    requires |tags| == |values| == |bound| && forall i :: 0 <= i < |values| ==> |values[i]| <= bound[i]
    ensures |Fields(tags, values)| <= 5 * |tags| + Sum(bound)
    decreases |tags|
  {
    if tags == [] {
    } else {
      FieldsLength(tags[1..], values[1..], bound[1..]);
    }
  }

  function Sum(xs: seq<nat>): nat {
    if xs == [] then 0 else xs[0] + Sum(xs[1..])
  }

  /** Canonical bytes are at most 802 long, so construction fails only for generation zero. */
  lemma LengthBound(p: Parts)
    ensures |Encode(p)| <= 802
    ensures Construct(p).Err? <==> p.generation == 0
    ensures Construct(p).Err? ==> Construct(p).error == InvalidValue
  {
    hide Fields, Encode, EncodeScope;
    EncodeShape(p);
    ScopeShape(p);
    FieldsLength(SCOPE_TAGS, ScopeValues(p), [128, 1]);
    if p.scope.Project? {
      FieldsLength(PROJECT_TAGS, [p.scope.id], [128]);
    }
    FieldsLength(OWNER_TAGS, OwnerValues(p), [128, 1, 64, 128, 8, 64, 64, 2]);
    Sums();
  }

  lemma Sums()
    ensures Sum([128, 1]) == 129 && Sum([128]) == 128 && Sum([128, 1, 64, 128, 8, 64, 64, 2]) == 459
  {
    assert Sum([64, 64, 2]) == 130;
    assert [128, 1, 64, 128, 8, 64, 64, 2][1..][1..][1..][1..][1..] == [64, 64, 2];
  }

  // ----- parsing -----

  function TakeField(bytes: seq<Byte>, tag: Byte): Option<(seq<Byte>, seq<Byte>)> {
    if |bytes| < 5 || bytes[0] != tag then None else
    var n := Number(bytes[1..5]);
    if |bytes| < 5 + n then None else Some((bytes[5..5 + n], bytes[5 + n..]))
  }

  function TakeFields(bytes: seq<Byte>, tags: seq<Byte>): (r: Option<(seq<seq<Byte>>, seq<Byte>)>)
    ensures r.Some? ==> |r.value.0| == |tags|
  {
    if tags == [] then Some(([], bytes)) else
    match TakeField(bytes, tags[0])
    case None => None
    case Some((value, rest)) =>
      match TakeFields(rest, tags[1..])
      case None => None
      case Some((values, left)) => Some(([value] + values, left))
  }

  function DecodeOwner(deployment: Identifier, scope: Scope, v: seq<seq<Byte>>): Option<Parts>
    requires |v| == |OWNER_TAGS|
  {
    if || !ValidIdentifier(v[0]) || v[1] !in {[1], [2]} || !ValidLabel(v[2]) || !ValidIdentifier(v[3]) || |v[4]| != 8
       || Number(v[4]) >= 0x1_0000_0000_0000_0000 || !ValidLabel(v[5]) || !ValidProvider(v[6]) || |v[7]| != 2
       || !(0 < Number(v[7]) < 0x1_0000)
    then None
    else Some(Parts(deployment, scope, v[0], if v[1] == [1] then SigningKey else ConfigurationSecret, v[2], v[3],
                    Number(v[4]), v[5], v[6], Number(v[7])))
  }

  function DecodeRest(deployment: Identifier, scope: Scope, bytes: seq<Byte>): Option<(Parts, seq<Byte>)> {
    match TakeFields(bytes, OWNER_TAGS)
    case None => None
    case Some((values, left)) =>
      match DecodeOwner(deployment, scope, values)
      case None => None
      case Some(p) => Some((p, left))
  }

  /** The inverse: the parts and the bytes that follow their encoding. */
  function Decode(bytes: seq<Byte>): Option<(Parts, seq<Byte>)> {
    if !(HEADER <= bytes) then None else
    match TakeFields(bytes[|HEADER|..], SCOPE_TAGS)
    case None => None
    case Some((scope, rest)) =>
      if !ValidIdentifier(scope[0]) then None
      else if scope[1] == [0] then DecodeRest(scope[0], Deployment, rest)
      else if scope[1] != [1] then None
      else
        match TakeFields(rest, PROJECT_TAGS)
        case None => None
        case Some((project, more)) =>
          if !ValidIdentifier(project[0]) then None else DecodeRest(scope[0], Project(project[0]), more)
  }

  lemma TakeFieldOfField(tag: Byte, value: seq<Byte>, rest: seq<Byte>)
    requires |value| < U32_BOUND
    ensures TakeField(Field(tag, value) + rest, tag) == Some((value, rest))
  {
    var bytes := Field(tag, value) + rest;
    PowersOfWidths();
    NumberOfBigEndian(|value|, 4);
    assert bytes[1..5] == BigEndian(|value|, 4);
    assert bytes[5..5 + |value|] == value && bytes[5 + |value|..] == rest;
  }

  lemma {:induction false} TakeFieldsOfFields(tags: seq<Byte>, values: seq<seq<Byte>>, rest: seq<Byte>)
    requires |tags| == |values| && forall i :: 0 <= i < |values| ==> |values[i]| < U32_BOUND
    ensures TakeFields(Fields(tags, values) + rest, tags) == Some((values, rest))
    decreases |tags|
  {
    hide TakeField, Field;
    if tags == [] {
      assert Fields(tags, values) + rest == rest;
    } else {
      var tail := Fields(tags[1..], values[1..]) + rest;
      assert Fields(tags, values) + rest == Field(tags[0], values[0]) + tail;
      TakeFieldOfField(tags[0], values[0], tail);
      TakeFieldsOfFields(tags[1..], values[1..], rest);
      assert [values[0]] + values[1..] == values;
    }
  }

  lemma DecodeOwnerOfValues(p: Parts)
    ensures DecodeOwner(p.deployment, p.scope, OwnerValues(p)) == Some(p)
  {
    PowersOfWidths();
    NumberOfBigEndian(p.generation, 8);
    NumberOfBigEndian(p.format, 2);
    assert [KindByte(p.kind)][0] == KindByte(p.kind) && [1] != [2];
  }

  /** Canonical bytes, with anything after them, decode to exactly the parts they encode. */
  lemma RoundTrip(p: Parts, rest: seq<Byte>)
    ensures Decode(Encode(p) + rest) == Some((p, rest))
  {
    hide Encode, EncodeScope, Fields, TakeFields, DecodeOwner, Number, ValidIdentifier;
    EncodeShape(p);
    ScopeShape(p);
    ValuesAreShort(p);
    var owner := Fields(OWNER_TAGS, OwnerValues(p)) + rest;
    var afterScope := ProjectFields(p) + owner;
    var afterHeader := Fields(SCOPE_TAGS, ScopeValues(p)) + afterScope;
    assert Encode(p) + rest == HEADER + afterHeader;
    assert (HEADER + afterHeader)[|HEADER|..] == afterHeader;
    TakeFieldsOfFields(SCOPE_TAGS, ScopeValues(p), afterScope);
    TakeFieldsOfFields(OWNER_TAGS, OwnerValues(p), rest);
    DecodeOwnerOfValues(p);
    assert [0][0] != [1][0];
    if p.scope.Project? {
      TakeFieldsOfFields(PROJECT_TAGS, [p.scope.id], owner);
    } else {
      assert afterScope == owner;
    }
  }

  /** No canonical encoding is another one, or the beginning of another one. */
  lemma PrefixFree(p: Parts, q: Parts)
    requires Encode(p) <= Encode(q)
    ensures p == q
  {
    hide Encode, Decode;
    var rest := Encode(q)[|Encode(p)|..];
    assert Encode(p) + rest == Encode(q) + [];
    RoundTrip(p, rest);
    RoundTrip(q, []);
  }
}
