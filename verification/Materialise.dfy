/** Writing a release version into the manifests and lockfiles, one location after the other. */
module Materialise {
  import opened Text
  import opened SemVer

  datatype Package = CliCrate | KeyProviderCrate | ServerCrate | TypesCrate | ClientCrate

  /** The places that carry a version. */
  datatype Location =
    | Manifest(package: Package)
    | Locked(package: Package)
    | CliOnTypes | ServerOnKeyProvider | ServerOnTypes
    | TypescriptPackage | TypescriptConstant | WebPackage | DocsPackage
    | PythonProject | PythonLocked | PythonConstant

  datatype Component = Server | Cli | Typescript | Python | Rust

  type Versions = map<Location, string>

  const CRATES: set<Package> := {CliCrate, KeyProviderCrate, ServerCrate, TypesCrate, ClientCrate}

  const LOCATIONS: set<Location> :=
    (set p | p in CRATES :: Manifest(p)) + (set p | p in CRATES :: Locked(p))
    + {CliOnTypes, ServerOnKeyProvider, ServerOnTypes, TypescriptPackage, TypescriptConstant, WebPackage, DocsPackage,
       PythonProject, PythonLocked, PythonConstant}

  const DEVELOPMENT: string := "0.0.0-dev"
  const PYTHON_DEVELOPMENT: string := "0.0.0.dev0"

  function DevelopmentVersion(at: Location): string {
    if at.PythonProject? || at.PythonLocked? || at.PythonConstant? then PYTHON_DEVELOPMENT else DEVELOPMENT
  }

  /** The locations a prepared release overrides. */
  function Overrides(c: Component): set<Location> {
    match c
    case Server =>
      {Manifest(KeyProviderCrate), Manifest(ServerCrate), Manifest(TypesCrate), CliOnTypes, ServerOnKeyProvider,
       ServerOnTypes, Locked(KeyProviderCrate), Locked(ServerCrate), Locked(TypesCrate)}
    case Cli =>
      {Manifest(CliCrate), Manifest(TypesCrate), CliOnTypes, ServerOnTypes, Locked(CliCrate), Locked(TypesCrate)}
    case Typescript => {TypescriptPackage, TypescriptConstant}
    case Python => {PythonProject, PythonLocked, PythonConstant}
    case Rust => {Manifest(ClientCrate), Locked(ClientCrate)}
  }

  function Expected(overrides: set<Location>, version: string): Versions {
    map at | at in LOCATIONS :: if at in overrides then version else DevelopmentVersion(at)
  }

  function Development(): Versions {
    Expected({}, "")
  }

  function Prepared(c: Component, version: string): Versions {
    Expected(Overrides(c), version)
  }

  predicate Stable(version: string) {
    ValidParts(Dissect(version)) && Dissect(version).prerelease.None? && Dissect(version).build.None?
  }

  /** The versions prepare_release accepts for a component. */
  predicate Publishable(c: Component, version: string) {
    Parse(version).Some? && version != DEVELOPMENT && (c.Python? ==> Stable(version))
  }

  /** The writes of prepare_release, in order. */
  function Writes(c: Component): seq<Location> {
    match c
    case Server =>
      [Manifest(TypesCrate), Manifest(ServerCrate), Manifest(KeyProviderCrate), ServerOnKeyProvider, ServerOnTypes,
       CliOnTypes, Locked(KeyProviderCrate), Locked(TypesCrate), Locked(ServerCrate)]
    case Cli =>
      [Manifest(TypesCrate), Manifest(CliCrate), CliOnTypes, ServerOnTypes, Locked(TypesCrate), Locked(CliCrate)]
    case Typescript => [TypescriptPackage, TypescriptConstant]
    case Python => [PythonProject, PythonLocked, PythonConstant]
    case Rust => [Manifest(ClientCrate), Locked(ClientCrate)]
  }

  /** The checkout after a number of writes. */
  function Written(v: Versions, writes: seq<Location>, version: string): Versions {
    if writes == [] then v else Written(v, writes[..|writes| - 1], version)[writes[|writes| - 1] := version]
  }

  // ----- the operations -----

  datatype Status = Materialised | Refused

  class Checkout {
    var versions: Versions

    method Set(at: Location, version: string, ghost start: Versions, ghost c: Component, ghost k: nat)
      requires k < |Writes(c)| && at == Writes(c)[k]
      requires versions == Written(start, Writes(c)[..k], version)
      modifies this
      ensures versions == Written(start, Writes(c)[..k + 1], version)
    {
      versions := versions[at := version];
      assert Writes(c)[..k + 1][..k] == Writes(c)[..k];
    }

    /** All writes of a component; nothing is written for a version that cannot be published. */
    method PrepareRelease(c: Component, version: string) returns (ok: bool)
      modifies this
      ensures ok <==> Publishable(c, version)
      ensures ok ==> versions == Written(old(versions), Writes(c), version)
      ensures !ok ==> versions == old(versions)
    {
      hide Parse, Stable, Written;
      if !Publishable(c, version) {
        return false;
      }
      if c == Server {
        PrepareServer(version);
        return true;
      }
      ghost var start := versions;
      NothingWritten(start, version, Writes(c));
      match c {
        case Cli =>
          Set(Manifest(TypesCrate), version, start, c, 0);
          Set(Manifest(CliCrate), version, start, c, 1);
          Set(CliOnTypes, version, start, c, 2);
          Set(ServerOnTypes, version, start, c, 3);
          Set(Locked(TypesCrate), version, start, c, 4);
          Set(Locked(CliCrate), version, start, c, 5);
        case Typescript =>
          Set(TypescriptPackage, version, start, c, 0);
          Set(TypescriptConstant, version, start, c, 1);
        case Python =>
          Set(PythonProject, version, start, c, 0);
          Set(PythonLocked, version, start, c, 1);
          Set(PythonConstant, version, start, c, 2);
        case Rust =>
          Set(Manifest(ClientCrate), version, start, c, 0);
          Set(Locked(ClientCrate), version, start, c, 1);
      }
      assert Writes(c)[..|Writes(c)|] == Writes(c);
      ok := true;
    }

    method PrepareServer(version: string)
      modifies this
      ensures versions == Written(old(versions), Writes(Server), version)
    {
      hide Written;
      ghost var start, c := versions, Server;
      NothingWritten(start, version, Writes(c));
      Set(Manifest(TypesCrate), version, start, c, 0);
      Set(Manifest(ServerCrate), version, start, c, 1);
      Set(Manifest(KeyProviderCrate), version, start, c, 2);
      Set(ServerOnKeyProvider, version, start, c, 3);
      Set(ServerOnTypes, version, start, c, 4);
      Set(CliOnTypes, version, start, c, 5);
      Set(Locked(KeyProviderCrate), version, start, c, 6);
      Set(Locked(TypesCrate), version, start, c, 7);
      Set(Locked(ServerCrate), version, start, c, 8);
      assert Writes(c)[..9] == Writes(c);
    }

    /** The command: only a development checkout or the exact prepared one is taken further. */
    method Materialise(c: Component, version: string) returns (status: Status)
      modifies this
      ensures status.Materialised? <==>
                Publishable(c, version) && old(versions) in {Development(), Prepared(c, version)}
      ensures status.Materialised? ==> versions == Prepared(c, version)
      ensures status.Refused? ==> versions == old(versions)
    {
      hide Publishable, Written, Expected, Writes, Overrides;
      if versions != Development() && versions != Prepared(c, version) {
        return Refused;
      }
      ghost var start := versions;
      var ok := PrepareRelease(c, version);
      if !ok {
        return Refused;
      }
      if start == Development() {
        PreparingWritesTheOverrides(c, version);
      } else {
        PreparingIsIdempotent(c, version);
      }
      assert versions == Prepared(c, version);
      status := Materialised;
    }
  }

  lemma NothingWritten(v: Versions, version: string, writes: seq<Location>)
    ensures Written(v, writes[..0], version) == v
  {
  }

  // ----- what the writes amount to -----

  lemma {:induction false} WrittenAt(v: Versions, writes: seq<Location>, version: string, at: Location)
    ensures Written(v, writes, version).Keys == v.Keys + set w | w in writes
    ensures at in v || at in writes ==>
              Written(v, writes, version)[at] == if at in writes then version else v[at]
    decreases |writes|
  {
    if writes == [] {
    } else {
      WrittenAt(v, writes[..|writes| - 1], version, at);
      assert writes == writes[..|writes| - 1] + [writes[|writes| - 1]];
    }
  }

  lemma WritesCover(c: Component)
    ensures forall at :: at in Writes(c) <==> at in Overrides(c)
  {
  }

  lemma OverridesAreLocations(c: Component)
    ensures Overrides(c) <= LOCATIONS && |Writes(c)| >= 2
  {
  }

  lemma WritesOnce(c: Component)
    ensures forall i, j :: 0 <= i < j < |Writes(c)| ==> Writes(c)[i] != Writes(c)[j]
  {
  }

  /** The table of writes and the table of overrides name the same locations, each written once. */
  lemma WritesAreTheOverrides(c: Component)
    ensures forall at :: at in Writes(c) <==> at in Overrides(c)
    ensures Overrides(c) <= LOCATIONS && |Writes(c)| >= 2
    ensures forall i, j :: 0 <= i < j < |Writes(c)| ==> Writes(c)[i] != Writes(c)[j]
  {
    hide Writes, Overrides, LOCATIONS;
    WritesCover(c);
    OverridesAreLocations(c);
    WritesOnce(c);
  }

  lemma WritesGive(v: Versions, c: Component, version: string)
    requires v.Keys == LOCATIONS
    requires forall at :: at in LOCATIONS && at !in Overrides(c) ==> v[at] == DevelopmentVersion(at)
    ensures Written(v, Writes(c), version) == Prepared(c, version)
  {
    hide Writes, Overrides, Written, LOCATIONS;
    WritesAreTheOverrides(c);
    var after := Written(v, Writes(c), version);
    forall at | at in LOCATIONS ensures at in after && after[at] == Prepared(c, version)[at] {
      WrittenAt(v, Writes(c), version, at);
    }
    WrittenAt(v, Writes(c), version, CliOnTypes);
    assert (set w | w in Writes(c)) <= LOCATIONS;
    assert after.Keys == LOCATIONS;
  }

  /** From the development state the writes change exactly the override locations. */
  lemma PreparingWritesTheOverrides(c: Component, version: string)
    ensures Written(Development(), Writes(c), version) == Prepared(c, version)
  {
    hide Writes, Overrides, Written;
    WritesGive(Development(), c, version);
  }

  lemma PreparingIsIdempotent(c: Component, version: string)
    ensures Written(Prepared(c, version), Writes(c), version) == Prepared(c, version)
  {
    hide Writes, Overrides, Written;
    WritesGive(Prepared(c, version), c, version);
  }

  // ----- states apart -----

  /** A location only this component overrides. */
  function Signature(c: Component): Location {
    match c
    case Server => Manifest(ServerCrate)
    case Cli => Manifest(CliCrate)
    case Typescript => TypescriptPackage
    case Python => PythonProject
    case Rust => Manifest(ClientCrate)
  }

  lemma SignatureIsItsOwn(c: Component, other: Component)
    ensures Signature(c) in LOCATIONS && (Signature(c) in Overrides(other) <==> c == other)
  {
  }

  lemma PythonDevelopmentIsNoVersion()
    ensures Parse(PYTHON_DEVELOPMENT).None?
  {
    hide Split, Cut;
    CutFirst(PYTHON_DEVELOPMENT, "", '+');
    CutFirst(PYTHON_DEVELOPMENT, "", '-');
    assert PYTHON_DEVELOPMENT == "0" + ['.'] + "0.0.dev0";
    SplitFirst("0", "0.0.dev0", '.');
    assert "0.0.dev0" == "0" + ['.'] + "0.dev0";
    SplitFirst("0", "0.dev0", '.');
    assert "0.dev0" == "0" + ['.'] + "dev0";
    SplitFirst("0", "dev0", '.');
    assert |Split(PYTHON_DEVELOPMENT, '.')| >= 4;
  }

  lemma PublishableIsNotDevelopment(c: Component, version: string, at: Location)
    requires Publishable(c, version)
    ensures version != DevelopmentVersion(at)
  {
    hide Parse, Stable;
    PythonDevelopmentIsNoVersion();
  }

  /** Prepared states of different releases differ, and none is the development state. */
  lemma PreparedStatesAreDistinct(c: Component, version: string, other: Component, another: string)
    requires Publishable(c, version) && Publishable(other, another)
    ensures Prepared(c, version) != Development()
    ensures Prepared(c, version) == Prepared(other, another) ==> c == other && version == another
  {
    hide Overrides, Publishable, LOCATIONS;
    var at := Signature(c);
    SignatureIsItsOwn(c, c);
    SignatureIsItsOwn(c, other);
    PublishableIsNotDevelopment(c, version, at);
    assert Prepared(c, version)[at] == version && Development()[at] == DevelopmentVersion(at);
    assert c != other ==> Prepared(other, another)[at] == DevelopmentVersion(at);
  }

  /** The checkout left by a crash after k writes. */
  function Crashed(c: Component, version: string, k: nat): Versions
    requires k <= |Writes(c)|
  {
    Written(Development(), Writes(c)[..k], version)
  }

  /**
   After a crash, a rerun of any release accepts the checkout exactly when no write had happened, or
   all writes had and the rerun is of the same release.
   */
  lemma CrashStatesAreRefused(c: Component, version: string, k: nat, other: Component, another: string)
    requires Publishable(c, version) && Publishable(other, another) && k <= |Writes(c)|
    ensures Crashed(c, version, k) == Development() <==> k == 0
    ensures Crashed(c, version, k) == Prepared(other, another) <==> k == |Writes(c)| && c == other && version == another
  {
    hide Overrides, Publishable, LOCATIONS, Written, Writes;
    WritesAreTheOverrides(c);
    if k == 0 {
      NothingWritten(Development(), version, Writes(c));
      PreparedStatesAreDistinct(other, another, other, another);
    } else {
      FirstWriteShows(c, version, k);
      if k == |Writes(c)| {
        assert Writes(c)[..k] == Writes(c);
        PreparingWritesTheOverrides(c, version);
        PreparedStatesAreDistinct(c, version, other, another);
      } else {
        PartialIsNotPrepared(c, version, k, other, another);
      }
    }
  }

  lemma FirstWriteShows(c: Component, version: string, k: nat)
    requires Publishable(c, version) && 0 < k <= |Writes(c)|
    ensures Crashed(c, version, k) != Development()
  {
    hide Overrides, Publishable, LOCATIONS, Written, Writes;
    WritesAreTheOverrides(c);
    var first := Writes(c)[0];
    assert Writes(c)[..k][0] == first;
    WrittenAt(Development(), Writes(c)[..k], version, first);
    PublishableIsNotDevelopment(c, version, first);
  }

  lemma PartialIsNotPrepared(c: Component, version: string, k: nat, other: Component, another: string)
    requires Publishable(c, version) && Publishable(other, another) && 0 < k < |Writes(c)|
    ensures Crashed(c, version, k) != Prepared(other, another)
  {
    hide Overrides, Publishable, LOCATIONS, Written, Writes;
    WritesAreTheOverrides(c);
    SignatureIsItsOwn(other, other);
    SignatureIsItsOwn(other, c);
    var at := if c == other then Writes(c)[|Writes(c)| - 1] else Signature(other);
    assert at !in Writes(c)[..k];
    WrittenAt(Development(), Writes(c)[..k], version, at);
    PublishableIsNotDevelopment(other, another, at);
    assert Prepared(other, another)[at] == another;
  }
}
