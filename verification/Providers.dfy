/** Capability sets queried by binary search, and the registry of custody providers built from them. */
module Providers {
  import opened Wrappers
  import opened Collections
  import Context

  // ----- capability sets -----

  const MAX_COUNT: nat := 16
  const MAX_ALGORITHMS: nat := 8
  const ED25519: nat := 0

  predicate Ascending(xs: seq<nat>) {
    forall i, j :: 0 <= i < j < |xs| ==> xs[i] < xs[j]
  }

  function Insert(x: nat, xs: seq<nat>): seq<nat> {
    if xs == [] || x < xs[0] then [x] + xs
    else if x == xs[0] then xs
    else [xs[0]] + Insert(x, xs[1..])
  }

  /** Collecting into an ordered set and listing it. */
  function Collect(values: seq<nat>): seq<nat> {
    if values == [] then [] else Insert(values[0], Collect(values[1..]))
  }

  datatype ValueError = Empty | TooLong | InvalidValue

  /** A non-empty, bounded set given without repetition. */
  function NewSet(values: seq<nat>, limit: nat): Result<seq<nat>, ValueError> {
    if values == [] then Err(Empty)
    else if |values| > limit then Err(TooLong)
    else if |Collect(values)| != |values| then Err(InvalidValue)
    else Ok(Collect(values))
  }

  /** Binary search in xs[lo..hi]. */
  function Search(xs: seq<nat>, x: nat, lo: nat, hi: nat): bool
    requires lo <= hi <= |xs|
    decreases hi - lo
  {
    if lo == hi then false else
    var mid := lo + (hi - lo) / 2;
    if xs[mid] == x then true
    else if xs[mid] < x then Search(xs, x, mid + 1, hi)
    else Search(xs, x, lo, mid)
  }

  function Contains(xs: seq<nat>, x: nat): bool {
    Search(xs, x, 0, |xs|)
  }

  lemma {:induction false} InsertAdds(x: nat, xs: seq<nat>)
    ensures forall y :: y in Insert(x, xs) <==> y == x || y in xs
    decreases |xs|
  {
    if xs != [] && x > xs[0] {
      InsertAdds(x, xs[1..]);
      assert xs == [xs[0]] + xs[1..];
    }
  }

  /** An ascending list is a first element below an ascending rest. */
  lemma AscendingCons(x: nat, rest: seq<nat>)
    ensures Ascending([x] + rest) <==> Ascending(rest) && forall y :: y in rest ==> x < y
  {
    var xs := [x] + rest;
    if Ascending(xs) {
      forall j | 0 <= j < |rest| ensures x < rest[j] {
        assert xs[0] < xs[j + 1];
      }
      forall i, j | 0 <= i < j < |rest| ensures rest[i] < rest[j] {
        assert xs[i + 1] < xs[j + 1];
      }
    }
    if Ascending(rest) && forall y :: y in rest ==> x < y {
      forall i, j | 0 <= i < j < |xs| ensures xs[i] < xs[j] {
        assert xs[j] == rest[j - 1] && rest[j - 1] in rest;
        assert i > 0 ==> xs[i] == rest[i - 1];
      }
    }
  }

  lemma {:induction false} InsertKeepsOrder(x: nat, xs: seq<nat>)
    requires Ascending(xs)
    ensures Ascending(Insert(x, xs))
    ensures |Insert(x, xs)| == if x in xs then |xs| else |xs| + 1
    decreases |xs|
  {
    hide Ascending;
    if xs == [] {
      AscendingCons(x, xs);
    } else {
      var rest := xs[1..];
      assert xs == [xs[0]] + rest;
      AscendingCons(xs[0], rest);
      if x < xs[0] {
        AscendingCons(x, xs);
      } else if x > xs[0] {
        InsertKeepsOrder(x, rest);
        InsertAdds(x, rest);
        AscendingCons(xs[0], Insert(x, rest));
      }
    }
  }

  lemma {:induction false} CollectIsTheSet(values: seq<nat>)
    ensures Ascending(Collect(values)) && |Collect(values)| <= |values|
    ensures forall y :: y in Collect(values) <==> y in values
    ensures |Collect(values)| == |values| <==> Distinct(values)
    decreases |values|
  {
    if values == [] {
    } else {
      CollectIsTheSet(values[1..]);
      InsertAdds(values[0], Collect(values[1..]));
      InsertKeepsOrder(values[0], Collect(values[1..]));
      if Distinct(values[1..]) && values[0] !in values[1..] {
        forall i, j | 0 <= i < j < |values| ensures values[i] != values[j] {
          assert values[j] == values[1..][j - 1];
          assert i > 0 ==> values[i] == values[1..][i - 1];
        }
      }
      if Distinct(values) {
        assert forall k :: 0 <= k < |values[1..]| ==> values[1..][k] == values[k + 1];
      }
    }
  }

  lemma {:induction false} SearchFinds(xs: seq<nat>, x: nat, lo: nat, hi: nat)
    requires Ascending(xs) && lo <= hi <= |xs|
    ensures Search(xs, x, lo, hi) <==> exists i :: lo <= i < hi && xs[i] == x
    decreases hi - lo
  {
    if lo == hi {
    } else {
      var mid := lo + (hi - lo) / 2;
      if xs[mid] < x {
        SearchFinds(xs, x, mid + 1, hi);
      } else if xs[mid] > x {
        SearchFinds(xs, x, lo, mid);
      }
    }
  }

  /** A set is accepted exactly when it is bounded and without repetition, and then contains is membership. */
  lemma ContainsIsMembership(values: seq<nat>, limit: nat, x: nat)
    ensures NewSet(values, limit).Ok? <==> 0 < |values| <= limit && Distinct(values)
    ensures NewSet(values, limit).Ok? ==> (Contains(NewSet(values, limit).value, x) <==> x in values)
  {
    hide Collect, Search;
    CollectIsTheSet(values);
    var xs := Collect(values);
    SearchFinds(xs, x, 0, |xs|);
  }

  // ----- registrations -----

  datatype Signing = Signing(provider: string, algorithms: seq<nat>, versions: seq<nat>)
  datatype Secrets = Secrets(provider: string, versions: seq<nat>)
  datatype Active = Active(provider: string, version: nat)

  /** Which planes a process serves. */
  datatype Mode = All | Auth | Control

  datatype CompositionError =
    | DuplicateCapability | ProviderIdMismatch | MissingCapability | MissingActiveProvider | UnsupportedSelection

  datatype Registrations = Registrations(
    provisioners: map<string, Signing>, signers: map<string, Signing>,
    sealers: map<string, Secrets>, openers: map<string, Secrets>,
    activeSigning: Option<Active>, activeSecret: Option<Active>)

  const NOTHING := Registrations(map[], map[], map[], map[], None, None)

  predicate SupportsSigning(c: Signing, version: nat) {
    Contains(c.algorithms, ED25519) && Contains(c.versions, version)
  }

  function InsertUnique<T>(table: map<string, T>, id: string, reported: string, capability: T)
    : Result<map<string, T>, CompositionError>
  {
    if id != reported then Err(ProviderIdMismatch)
    else if id in table then Err(DuplicateCapability)
    else Ok(table[id := capability])
  }

  datatype Action =
    | RegisterProvisioner(id: string, signing: Signing) | RegisterSigner(id: string, signing: Signing)
    | RegisterSealer(id: string, secrets: Secrets) | RegisterOpener(id: string, secrets: Secrets)
    | SelectSigning(active: Active) | SelectSecret(active: Active)

  /** The capability reports another identifier than the one it is registered under. */
  predicate Misnamed(action: Action) {
    match action
    case RegisterProvisioner(id, c) => id != c.provider
    case RegisterSigner(id, c) => id != c.provider
    case RegisterSealer(id, c) => id != c.provider
    case RegisterOpener(id, c) => id != c.provider
    case _ => false
  }

  predicate Taken(r: Registrations, action: Action) {
    match action
    case RegisterProvisioner(id, _) => id in r.provisioners
    case RegisterSigner(id, _) => id in r.signers
    case RegisterSealer(id, _) => id in r.sealers
    case RegisterOpener(id, _) => id in r.openers
    case _ => false
  }

  /** The first capability registered under an identifier stays; others are refused. */
  function Kept<T>(table: map<string, T>, id: string, reported: string, capability: T): map<string, T> {
    if id == reported && id !in table then table[id := capability] else table
  }

  function After(r: Registrations, action: Action): Registrations {
    match action
    case RegisterProvisioner(id, c) => r.(provisioners := Kept(r.provisioners, id, c.provider, c))
    case RegisterSigner(id, c) => r.(signers := Kept(r.signers, id, c.provider, c))
    case RegisterSealer(id, c) => r.(sealers := Kept(r.sealers, id, c.provider, c))
    case RegisterOpener(id, c) => r.(openers := Kept(r.openers, id, c.provider, c))
    case SelectSigning(active) => r.(activeSigning := Some(active))
    case SelectSecret(active) => r.(activeSecret := Some(active))
  }

  /** One registration call; a refused one leaves the registry as it was. */
  class ProviderRegistry {
    var registered: Registrations

    constructor ()
      ensures registered == NOTHING
    {
      registered := NOTHING;
    }

    method Perform(action: Action) returns (error: Option<CompositionError>)
      modifies this
      ensures registered == After(old(registered), action)
      ensures error.Some? ==> registered == old(registered)
      ensures error == Some(ProviderIdMismatch) <==> Misnamed(action)
      ensures error == Some(DuplicateCapability) <==> !Misnamed(action) && Taken(old(registered), action)
      ensures error in {None, Some(ProviderIdMismatch), Some(DuplicateCapability)}
    {
      match action {
        case RegisterProvisioner(id, c) =>
          var r := InsertUnique(registered.provisioners, id, c.provider, c);
          if r.Err? { return Some(r.error); }
          registered := registered.(provisioners := r.value);
        case RegisterSigner(id, c) =>
          var r := InsertUnique(registered.signers, id, c.provider, c);
          if r.Err? { return Some(r.error); }
          registered := registered.(signers := r.value);
        case RegisterSealer(id, c) =>
          var r := InsertUnique(registered.sealers, id, c.provider, c);
          if r.Err? { return Some(r.error); }
          registered := registered.(sealers := r.value);
        case RegisterOpener(id, c) =>
          var r := InsertUnique(registered.openers, id, c.provider, c);
          if r.Err? { return Some(r.error); }
          registered := registered.(openers := r.value);
        case SelectSigning(active) => registered := registered.(activeSigning := Some(active));
        case SelectSecret(active) => registered := registered.(activeSecret := Some(active));
      }
      error := None;
    }
  }

  function AfterAll(actions: seq<Action>): Registrations {
    if actions == [] then NOTHING else After(AfterAll(actions[..|actions| - 1]), actions[|actions| - 1])
  }

  function ValidateControl(r: Registrations): Option<CompositionError> {
    if r.activeSigning.None? then Some(MissingActiveProvider) else
    var Active(provider, version) := r.activeSigning.value;
    if provider !in r.provisioners then Some(MissingCapability)
    else if !SupportsSigning(r.provisioners[provider], version) then Some(UnsupportedSelection)
    else ValidateSecret(r.sealers, r.activeSecret)
  }

  function ValidateSecret(table: map<string, Secrets>, active: Option<Active>): Option<CompositionError> {
    if active.None? then Some(MissingActiveProvider)
    else if active.value.provider !in table then Some(MissingCapability)
    else if !Contains(table[active.value.provider].versions, active.value.version) then Some(UnsupportedSelection)
    else None
  }

  function ValidateAuth(r: Registrations): Option<CompositionError> {
    if r.signers == map[] || r.openers == map[] then Some(MissingCapability)
    else if exists id :: id in r.signers && !Contains(r.signers[id].algorithms, ED25519) then Some(UnsupportedSelection)
    else None
  }

  function ValidateBoth(r: Registrations): Option<CompositionError> {
    if r.activeSigning.None? then Some(MissingActiveProvider) else
    var Active(provider, version) := r.activeSigning.value;
    if provider !in r.signers then Some(MissingCapability)
    else if !Contains(r.signers[provider].versions, version) then Some(UnsupportedSelection)
    else ValidateSecret(r.openers, r.activeSecret)
  }

  /** The first failure of the checks a process mode needs. */
  function ValidateForMode(r: Registrations, mode: Mode): Option<CompositionError> {
    var control := if mode.Auth? then None else ValidateControl(r);
    if control.Some? then control else
    var auth := if mode.Control? then None else ValidateAuth(r);
    if auth.Some? then auth else
    if mode.All? then ValidateBoth(r) else None
  }

  predicate SupportsRuntimeMaterial(r: Registrations, provider: string, version: nat, kind: Context.MaterialKind) {
    match kind
    case SigningKey => provider in r.signers && SupportsSigning(r.signers[provider], version)
    case ConfigurationSecret => provider in r.openers && Contains(r.openers[provider].versions, version)
  }

  /** Capability sets as their constructors make them. */
  ghost predicate Declared(xs: seq<nat>, limit: nat) {
    exists values :: NewSet(values, limit) == Ok(xs)
  }

  ghost predicate WellDeclared(action: Action) {
    match action
    case RegisterProvisioner(_, c) => Declared(c.algorithms, MAX_ALGORITHMS) && Declared(c.versions, MAX_COUNT)
    case RegisterSigner(_, c) => Declared(c.algorithms, MAX_ALGORITHMS) && Declared(c.versions, MAX_COUNT)
    case RegisterSealer(_, c) => Declared(c.versions, MAX_COUNT)
    case RegisterOpener(_, c) => Declared(c.versions, MAX_COUNT)
    case _ => true
  }

  lemma DeclaredContains(xs: seq<nat>, limit: nat, x: nat)
    requires Declared(xs, limit)
    ensures Contains(xs, x) <==> x in xs
  {
    hide Search;
    var values :| NewSet(values, limit) == Ok(xs);
    ContainsIsMembership(values, limit, x);
    CollectIsTheSet(values);
  }

  ghost predicate SoundSigners(table: map<string, Signing>) {
    forall id :: id in table ==>
      && table[id].provider == id
      && Declared(table[id].algorithms, MAX_ALGORITHMS) && Declared(table[id].versions, MAX_COUNT)
  }

  ghost predicate SoundSecrets(table: map<string, Secrets>) {
    forall id :: id in table ==> table[id].provider == id && Declared(table[id].versions, MAX_COUNT)
  }

  ghost predicate Sound(r: Registrations) {
    SoundSigners(r.provisioners) && SoundSigners(r.signers) && SoundSecrets(r.sealers) && SoundSecrets(r.openers)
  }

  lemma SoundStep(r: Registrations, action: Action)
    requires Sound(r) && WellDeclared(action)
    ensures Sound(After(r, action))
  {
    hide Declared;
  }

  lemma {:induction false} RegistrationsAreSound(actions: seq<Action>)
    requires forall i :: 0 <= i < |actions| ==> WellDeclared(actions[i])
    ensures Sound(AfterAll(actions))
    decreases |actions|
  {
    hide After, Declared, WellDeclared;
    if actions == [] {
    } else {
      RegistrationsAreSound(actions[..|actions| - 1]);
      SoundStep(AfterAll(actions[..|actions| - 1]), actions[|actions| - 1]);
    }
  }

  /** The capability can serve the selection, by what it declares. */
  predicate Offers(table: map<string, Signing>, active: Option<Active>) {
    && active.Some? && active.value.provider in table
    && ED25519 in table[active.value.provider].algorithms
    && active.value.version in table[active.value.provider].versions
  }

  predicate OffersSecret(table: map<string, Secrets>, active: Option<Active>) {
    active.Some? && active.value.provider in table && active.value.version in table[active.value.provider].versions
  }

  predicate AllSign(table: map<string, Signing>) {
    table != map[] && forall id :: id in table ==> ED25519 in table[id].algorithms
  }

  lemma SoundSigning(table: map<string, Signing>)
    requires SoundSigners(table)
    ensures forall id :: id in table ==> (Contains(table[id].algorithms, ED25519) <==> ED25519 in table[id].algorithms)
    ensures forall id, v: nat :: id in table ==> (Contains(table[id].versions, v) <==> v in table[id].versions)
  {
    hide Declared, Contains;
    forall id | id in table ensures Contains(table[id].algorithms, ED25519) <==> ED25519 in table[id].algorithms {
      DeclaredContains(table[id].algorithms, MAX_ALGORITHMS, ED25519);
    }
    forall id, v: nat | id in table ensures Contains(table[id].versions, v) <==> v in table[id].versions {
      DeclaredContains(table[id].versions, MAX_COUNT, v);
    }
  }

  lemma SoundSecret(table: map<string, Secrets>)
    requires SoundSecrets(table)
    ensures forall id, v: nat :: id in table ==> (Contains(table[id].versions, v) <==> v in table[id].versions)
  {
    hide Declared, Contains;
    forall id, v: nat | id in table ensures Contains(table[id].versions, v) <==> v in table[id].versions {
      DeclaredContains(table[id].versions, MAX_COUNT, v);
    }
  }

  /**
   After any registrations a mode is accepted exactly when what was declared suffices: a control plane
   can create under both selections, an auth plane has signers, all with Ed25519, and openers, and a
   process serving both can also use what it creates.
   */
  lemma AcceptedIffDeclared(actions: seq<Action>, mode: Mode)
    requires forall i :: 0 <= i < |actions| ==> WellDeclared(actions[i])
    ensures var r := AfterAll(actions);
            ValidateForMode(r, mode) == None <==>
            && (!mode.Auth? ==> Offers(r.provisioners, r.activeSigning) && OffersSecret(r.sealers, r.activeSecret))
            && (!mode.Control? ==> r.openers != map[] && AllSign(r.signers))
            && (mode.All? ==> Offers(r.signers, r.activeSigning) && OffersSecret(r.openers, r.activeSecret))
  {
    hide SoundSigners, SoundSecrets, Contains, AfterAll;
    RegistrationsAreSound(actions);
    var r := AfterAll(actions);
    SoundSigning(r.provisioners);
    SoundSigning(r.signers);
    SoundSecret(r.sealers);
    SoundSecret(r.openers);
  }

  /**
   If a process serving both planes is accepted after any registrations, then material created under
   either active selection can be used at run time: its provider is registered there under its own
   identifier and declares the selected version, and Ed25519 for signing.
   */
  lemma AcceptedSelectionsAreUsable(actions: seq<Action>)
    requires forall i :: 0 <= i < |actions| ==> WellDeclared(actions[i])
    requires ValidateForMode(AfterAll(actions), All) == None
    ensures var r := AfterAll(actions);
            && r.activeSigning.Some? && r.activeSecret.Some?
            && var (s, c) := (r.activeSigning.value, r.activeSecret.value);
              && SupportsRuntimeMaterial(r, s.provider, s.version, Context.SigningKey)
              && SupportsRuntimeMaterial(r, c.provider, c.version, Context.ConfigurationSecret)
              && r.signers[s.provider].provider == s.provider && r.openers[c.provider].provider == c.provider
              && s.version in r.signers[s.provider].versions && ED25519 in r.signers[s.provider].algorithms
              && c.version in r.openers[c.provider].versions
  {
    hide Declared, Contains, AfterAll;
    RegistrationsAreSound(actions);
    var r := AfterAll(actions);
    var s, c := r.activeSigning.value, r.activeSecret.value;
    DeclaredContains(r.signers[s.provider].versions, MAX_COUNT, s.version);
    DeclaredContains(r.signers[s.provider].algorithms, MAX_ALGORITHMS, ED25519);
    DeclaredContains(r.openers[c.provider].versions, MAX_COUNT, c.version);
  }
}
