/**
 The CLI profile store: endpoint and descriptor validation, and the three mutations that a
 command applies to the store under its lock.
 */
module Profiles {
  import opened Wrappers
  import opened TextLib = Text

  const MAX_STORE_BYTES: nat := 1024 * 1024

  datatype Product = OwlauthServer
  datatype CredentialClass = OperatorApiKey

  // ----- URLs -----

  predicate Bracketed(s: string) {
    |s| >= 2 && s[0] == '[' && s[|s| - 1] == ']' && ']' !in s[..|s| - 1]
  }

  /** Host text as the URL standard serialises it: none of its delimiters, and colons only in an IPv6 address. */
  predicate HostCharacters(s: string) {
    '%' !in s && '\\' !in s && '/' !in s && (Bracketed(s) || (':' !in s && '[' !in s))
  }

  type HostText = s: string | HostCharacters(s) witness ""

  datatype Host = Domain(text: HostText) | Address(text: HostText, loopback: bool)

  datatype Url = Url(scheme: string, username: string, password: Option<string>, host: Option<Host>,
                     port: Option<nat>, path: string, query: Option<string>, fragment: Option<string>)

  /** Some text together with what the URL parser makes of it. */
  datatype UrlText = UrlText(text: string, parsed: Option<Url>)

  function Digit(d: nat): char
    requires d < 10
  {
    '0' + d as char
  }

  function Decimal(n: nat): string {
    if n < 10 then [Digit(n)] else Decimal(n / 10) + [Digit(n % 10)]
  }

  function Credentials(u: Url): string {
    if u.username == "" && u.password.None? then ""
    else u.username + (if u.password.Some? then ":" + u.password.value else "") + "@"
  }

  /** The serialisation of a URL. */
  function Href(u: Url): string {
    u.scheme + ":" + (if u.host.Some? then "//" + Credentials(u) + u.host.value.text else "")
    + (if u.port.Some? then ":" + Decimal(u.port.value) else "") + u.path
    + (if u.query.Some? then "?" + u.query.value else "") + (if u.fragment.Some? then "#" + u.fragment.value else "")
  }

  /** Serialising and parsing again gives the URL back; for origins see OriginRoundTrip. */
  function Text(u: Url): UrlText {
    UrlText(Href(u), Some(u))
  }

  predicate Ambiguous(text: string) {
    '%' in text || '\\' in text
  }

  function KnownPort(u: Url): Option<nat> {
    if u.port.Some? then u.port
    else if u.scheme == "https" then Some(443)
    else if u.scheme == "http" then Some(80)
    else None
  }

  function HostString(u: Url): Option<string> {
    if u.host.Some? then Some(u.host.value.text) else None
  }

  predicate SameOrigin(a: Url, b: Url) {
    a.scheme == b.scheme && HostString(a) == HostString(b) && KnownPort(a) == KnownPort(b)
  }

  function Lower(c: char): char {
    if 'A' <= c <= 'Z' then c - 'A' + 'a' else c
  }

  predicate IsLoopback(u: Url) {
    match u.host
    case None => false
    case Some(Domain(text)) => |text| == 9 && forall i :: 0 <= i < 9 ==> Lower(text[i]) == "localhost"[i]
    case Some(Address(_, loopback)) => loopback
  }

  predicate OriginOnly(u: Url) {
    && u.username == "" && u.password.None? && u.query.None? && u.fragment.None? && u.path == "/" && u.host.Some?
    && (u.scheme == "https" || (u.scheme == "http" && IsLoopback(u)))
  }

  function ValidateEndpoint(value: UrlText): Result<Url, Error> {
    if Ambiguous(value.text) || value.parsed.None? || !OriginOnly(value.parsed.value) then Err(InvalidEndpoint)
    else Ok(value.parsed.value)
  }

  predicate DescriptorUrl(endpoint: Url, value: UrlText, trailingSlash: bool) {
    && !Ambiguous(value.text) && value.parsed.Some?
    && var u := value.parsed.value;
      && Href(u) == value.text && SameOrigin(endpoint, u)
      && u.username == "" && u.password.None? && u.query.None? && u.fragment.None?
      && (trailingSlash ==> u.path != "" && u.path[|u.path| - 1] == '/')
  }

  lemma {:induction false} DecimalIsPlain(n: nat)
    ensures !Ambiguous(Decimal(n))
  {
    if n < 10 {
    } else {
      DecimalIsPlain(n / 10);
    }
  }

  /** An accepted endpoint is accepted again after it has been written out and read back. */
  lemma EndpointReloads(value: UrlText)
    requires ValidateEndpoint(value).Ok?
    ensures ValidateEndpoint(Text(ValidateEndpoint(value).value)) == ValidateEndpoint(value)
  {
    var u := ValidateEndpoint(value).value;
    if u.port.Some? {
      DecimalIsPlain(u.port.value);
    }
    assert !Ambiguous("https") && !Ambiguous("http") && !Ambiguous("/") && !Ambiguous("//") && !Ambiguous(":");
  }

  // ----- reading an origin back -----

  function DigitValue(c: char): nat {
    if '0' <= c <= '9' then (c - '0') as nat else 0
  }

  function DecimalValue(s: string): nat {
    if s == "" then 0 else 10 * DecimalValue(s[..|s| - 1]) + DigitValue(s[|s| - 1])
  }

  predicate Digits(s: string) {
    s != "" && forall i :: 0 <= i < |s| ==> '0' <= s[i] <= '9'
  }

  lemma {:induction false} DecimalReads(n: nat)
    ensures Digits(Decimal(n)) && DecimalValue(Decimal(n)) == n
  {
    if n < 10 {
    } else {
      DecimalReads(n / 10);
      var s := Decimal(n);
      assert s[..|s| - 1] == Decimal(n / 10);
    }
  }

  const HTTPS: string := "https"
  const HTTP: string := "http"

  function DefaultPort(scheme: string): nat {
    if scheme == HTTPS then 443 else 80
  }

  /** Host and port text of an authority without credentials. */
  function SplitPort(authority: string): Option<(string, Option<string>)> {
    if "[" <= authority then
      var (inside, found, rest) := Cut(authority, ']');
      if !found then None
      else if rest == "" then Some((inside + "]", None))
      else if rest[0] == ':' then Some((inside + "]", Some(rest[1..])))
      else None
    else
      var (host, found, port) := Cut(authority, ':');
      Some((host, if found then Some(port) else None))
  }

  /** The port a URL keeps: none for the default one. */
  function PortOf(scheme: string, text: Option<string>): Option<Option<nat>> {
    if text.None? then Some(None)
    else if !Digits(text.value) || DecimalValue(text.value) > 65535 then None
    else Some(if DecimalValue(text.value) == DefaultPort(scheme) then None else Some(DecimalValue(text.value)))
  }

  /** The URL parser on origins in serialised form; hosts stands for its host parser. */
  function ParseOrigin(text: string, hosts: string -> Option<Host>): Option<Url> {
    var (scheme, found, rest) := Cut(text, ':');
    if !found || scheme !in {HTTPS, HTTP} || |rest| < 3 || !("//" <= rest) || rest[|rest| - 1] != '/' then None else
    match SplitPort(rest[2..|rest| - 1])
    case None => None
    case Some((host, port)) =>
      if hosts(host).None? || PortOf(scheme, port).None? then None
      else Some(Url(scheme, "", None, hosts(host), PortOf(scheme, port).value, "/", None, None))
  }

  /** As the parser makes URLs: the host is what its text parses to, and a default port is not kept. */
  predicate Canonical(u: Url, hosts: string -> Option<Host>) {
    && (u.host.Some? ==> hosts(u.host.value.text) == u.host)
    && (u.port.Some? ==> u.port.value <= 65535 && u.port.value != DefaultPort(u.scheme))
  }

  lemma SplitPortOfHost(host: HostText, port: Option<string>)
    ensures SplitPort(host + (if port.Some? then ":" + port.value else "")) == Some((host, port))
  {
    var authority := host + if port.Some? then ":" + port.value else "";
    if Bracketed(host) {
      var inside := host[..|host| - 1];
      var rest := if port.Some? then ":" + port.value else "";
      assert host == inside + "]" && authority == inside + [']'] + rest;
      CutFirst(inside, rest, ']');
    } else {
      assert authority != "" ==> authority[0] != '[';
      if port.Some? {
        assert authority == host + [':'] + port.value;
        CutFirst(host, port.value, ':');
      } else {
        assert authority == host;
        CutFirst(host, "", ':');
      }
    }
  }

  lemma PortReads(scheme: string, port: Option<nat>)
    requires port.Some? ==> port.value <= 65535 && port.value != DefaultPort(scheme)
    ensures PortOf(scheme, if port.Some? then Some(Decimal(port.value)) else None) == Some(port)
  {
    if port.Some? {
      DecimalReads(port.value);
    }
  }

  lemma OriginText(u: Url)
    requires OriginOnly(u)
    ensures (u.scheme == HTTPS || u.scheme == HTTP) && ':' !in u.scheme
    ensures Href(u) == u.scheme + [':'] + ("//" + (u.host.value.text
                         + (if u.port.Some? then ":" + Decimal(u.port.value) else "")) + "/")
  {
  }

  /** Writing an accepted endpoint out and parsing it again gives it back. */
  lemma OriginRoundTrip(u: Url, hosts: string -> Option<Host>)
    requires OriginOnly(u) && Canonical(u, hosts)
    ensures ParseOrigin(Href(u), hosts) == Some(u)
  {
    hide Decimal, SplitPort, PortOf, Href, HTTPS, HTTP;
    OriginText(u);
    var port := if u.port.Some? then Some(Decimal(u.port.value)) else None;
    var authority := u.host.value.text + if port.Some? then ":" + port.value else "";
    var rest := "//" + authority + "/";
    CutFirst(u.scheme, rest, ':');
    assert rest[2..|rest| - 1] == authority && rest[|rest| - 1] == '/';
    SplitPortOfHost(u.host.value.text, port);
    PortReads(u.scheme, u.port);
  }

  // ----- names, descriptors and profiles -----

  datatype Error =
    | InvalidProfileName | InvalidEndpoint | Discovery | InvalidDescriptor | ProfileExists | ProfileMissing
    | NoSelectedProfile | IdentityChanged | ConfirmationRequired | InvalidCredentialEnvironment
    | ReusedCredentialEnvironment | ProfileStorage

  predicate Alphanumeric(c: char) {
    'a' <= c <= 'z' || 'A' <= c <= 'Z' || '0' <= c <= '9'
  }

  predicate ValidName(name: string) {
    0 < |name| <= 64 && forall i :: 0 <= i < |name| ==> Alphanumeric(name[i]) || name[i] in {'.', '_', '-'}
  }

  predicate ValidEnvironment(name: string) {
    0 < |name| <= 128
    && forall i :: 0 <= i < |name| ==> 'A' <= name[i] <= 'Z' || '0' <= name[i] <= '9' || name[i] == '_'
  }

  datatype RawDescriptor = RawDescriptor(schemaVersion: string, product: Product, instanceId: string,
                                         apiBase: UrlText, apiVersions: seq<string>,
                                         credentialClass: CredentialClass, mcp: Option<UrlText>)

  datatype Descriptor = Descriptor(product: Product, instanceId: string, apiBase: Url, apiVersions: seq<string>,
                                   credentialClass: CredentialClass, mcp: Option<Url>)

  datatype Profile = Profile(endpoint: Url, product: Product, instanceId: string, apiBase: Url,
                             apiVersions: seq<string>, credentialClass: CredentialClass,
                             credentialEnvironment: string, mcp: Option<Url>)

  predicate ValidVersion(v: string) {
    0 < |v| <= 16 && forall i :: 0 <= i < |v| ==> Alphanumeric(v[i])
  }

  function ValidateDescriptor(endpoint: Url, raw: RawDescriptor): Result<Descriptor, Error> {
    if || raw.schemaVersion != "1"
       || !(0 < |raw.instanceId| <= 128 && forall i :: 0 <= i < |raw.instanceId| ==> '!' <= raw.instanceId[i] <= '~')
       || !(0 < |raw.apiVersions| <= 8 && "v1" in raw.apiVersions)
       || !(forall i :: 0 <= i < |raw.apiVersions| ==> ValidVersion(raw.apiVersions[i]))
       || !DescriptorUrl(endpoint, raw.apiBase, true)
       || (raw.mcp.Some? && !DescriptorUrl(endpoint, raw.mcp.value, false))
    then Err(InvalidDescriptor)
    else Ok(Descriptor(raw.product, raw.instanceId, raw.apiBase.parsed.value, raw.apiVersions, raw.credentialClass,
                       if raw.mcp.Some? then Some(raw.mcp.value.parsed.value) else None))
  }

  function ProfileFromDescriptor(endpoint: Url, d: Descriptor, environment: Option<string>): Result<Profile, Error> {
    var chosen := if environment.Some? then environment.value else "OWLAUTH_CONTROL_API_KEY";
    if !ValidEnvironment(chosen) then Err(InvalidCredentialEnvironment)
    else Ok(Profile(endpoint, d.product, d.instanceId, d.apiBase, d.apiVersions, d.credentialClass, chosen, d.mcp))
  }

  predicate MatchesIdentity(p: Profile, d: Descriptor) {
    d.product == p.product && d.instanceId == p.instanceId && d.apiBase == p.apiBase
    && d.credentialClass == p.credentialClass
  }

  predicate SameAuthority(a: Profile, b: Profile) {
    a.endpoint == b.endpoint && a.product == b.product && a.instanceId == b.instanceId && a.apiBase == b.apiBase
    && a.credentialClass == b.credentialClass && a.credentialEnvironment == b.credentialEnvironment
  }

  // ----- the store -----

  datatype Store = Store(current: Option<string>, profiles: map<string, Profile>)

  const EMPTY := Store(None, map[])

  predicate Loadable(s: Store) {
    && (s.current.Some? ==> s.current.value in s.profiles)
    && forall n :: n in s.profiles ==>
         ValidName(n) && ValidateEndpoint(Text(s.profiles[n].endpoint)).Ok?
         && ValidEnvironment(s.profiles[n].credentialEnvironment)
  }

  /** Reading the file back; bytes gives the size of a store once written out. */
  function Load(file: Option<Store>, bytes: Store -> nat): Result<Store, Error> {
    match file
    case None => Ok(EMPTY)
    case Some(s) => if bytes(s) > MAX_STORE_BYTES || !Loadable(s) then Err(ProfileStorage) else Ok(s)
  }

  /** What a command does to the store once it holds the lock. */
  datatype Mutation =
    | Insert(name: string, profile: Profile)
    | Merge(name: string, snapshot: Profile, descriptor: Descriptor, select: bool)
    | Replace(name: string, snapshot: Profile, profile: Profile)

  function Mutate(s: Store, m: Mutation): Result<Store, Error> {
    match m
    case Insert(name, profile) =>
      if name in s.profiles then Err(ProfileExists)
      else Ok(Store(if s.current.None? then Some(name) else s.current, s.profiles[name := profile]))
    case Merge(name, snapshot, d, select) =>
      if name !in s.profiles then Err(ProfileMissing)
      else if !SameAuthority(s.profiles[name], snapshot) then Err(IdentityChanged)
      else Ok(Store(if select then Some(name) else s.current,
                    s.profiles[name := s.profiles[name].(apiVersions := d.apiVersions, mcp := d.mcp)]))
    case Replace(name, snapshot, profile) =>
      if name !in s.profiles then Err(ProfileMissing)
      else if !SameAuthority(s.profiles[name], snapshot) then Err(IdentityChanged)
      else Ok(s.(profiles := s.profiles[name := profile]))
  }

  /** Loading, mutating and saving as one step. */
  function Commit(file: Option<Store>, m: Mutation, bytes: Store -> nat): Result<Store, Error> {
    match Load(file, bytes)
    case Err(e) => Err(e)
    case Ok(s) => Mutate(s, m)
  }

  /** The store file: read, changed in memory and written back while the lock is held. */
  class ProfileFile {
    var file: Option<Store>

    /** The closure a command runs on the store it has just loaded. */
    method MutateStore(m: Mutation, bytes: Store -> nat) returns (r: Result<(), Error>)
      modifies this
      ensures r.Ok? ==> file.Some? && Commit(old(file), m, bytes) == Ok(file.value)
      ensures r.Err? ==> file == old(file)
      ensures r.Err? && r.error != ProfileStorage ==> Commit(old(file), m, bytes) == Err(r.error)
    {
      if * {
        return Err(ProfileStorage); // the directory or the lock is unavailable
      }
      var loaded := Load(file, bytes);
      if loaded.Err? {
        return Err(loaded.error);
      }
      var current, profiles := loaded.value.current, loaded.value.profiles;
      match m {
        case Insert(name, profile) =>
          if name in profiles {
            return Err(ProfileExists);
          }
          profiles := profiles[name := profile];
          if current.None? {
            current := Some(name);
          }
        case Merge(name, snapshot, d, select) =>
          if name !in profiles {
            return Err(ProfileMissing);
          }
          if !SameAuthority(profiles[name], snapshot) {
            return Err(IdentityChanged);
          }
          var profile := profiles[name];
          profile := profile.(apiVersions := d.apiVersions);
          profile := profile.(mcp := d.mcp);
          profiles := profiles[name := profile];
          if select {
            current := Some(name);
          }
        case Replace(name, snapshot, profile) =>
          if name !in profiles {
            return Err(ProfileMissing);
          }
          if !SameAuthority(profiles[name], snapshot) {
            return Err(IdentityChanged);
          }
          profiles := profiles[name := profile];
      }
      if * {
        return Err(ProfileStorage); // the temporary file cannot be written or moved into place
      }
      file := Some(Store(current, profiles));
      r := Ok(());
    }
  }
}
