/**
 Any number of CLI processes working on one profile store: each takes an unlocked snapshot, waits
 for an arbitrary discovery reply, and then commits against whatever the store has become.
 */
module ProfileRuns {
  import opened Wrappers
  import opened Profiles

  datatype Command =
    | Add(name: string, endpoint: UrlText, environment: Option<string>, confirmed: bool)
    | Use(name: string)
    | Check(requested: Option<string>)
    | Rebind(name: string, endpoint: UrlText, credential: string, confirmed: bool)

  /** A command past its checks: the profile name it resolved, whom to ask, and its snapshot. */
  datatype Request = Request(command: Command, name: string, target: Url, snapshot: Option<Profile>)

  datatype Reply = Refused | Answered(raw: RawDescriptor)

  // ----- one command -----

  function SelectProfile(s: Store, requested: Option<string>): Result<string, Error> {
    var name := if requested.Some? then requested else s.current;
    if name.None? then Err(NoSelectedProfile)
    else if name.value !in s.profiles then Err(ProfileMissing)
    else Ok(name.value)
  }

  function Ask(command: Command, name: string, snapshot: Option<Profile>, endpoint: UrlText): Result<Request, Error> {
    match ValidateEndpoint(endpoint)
    case Err(e) => Err(e)
    case Ok(url) => Ok(Request(command, name, url, snapshot))
  }

  /** Everything a command does before it contacts the endpoint. */
  function Begin(command: Command, file: Option<Store>, bytes: Store -> nat): Result<Request, Error> {
    match command
    case Add(name, endpoint, _, _) =>
      if !ValidName(name) then Err(InvalidProfileName) else Ask(command, name, None, endpoint)
    case Use(name) =>
      if !ValidName(name) then Err(InvalidProfileName) else
      (match Load(file, bytes)
       case Err(e) => Err(e)
       case Ok(s) =>
         if name !in s.profiles then Err(ProfileMissing)
         else Ask(command, name, Some(s.profiles[name]), Text(s.profiles[name].endpoint)))
    case Check(requested) =>
      (match Load(file, bytes)
       case Err(e) => Err(e)
       case Ok(s) =>
         match SelectProfile(s, requested)
         case Err(e) => Err(e)
         case Ok(name) => Ask(command, name, Some(s.profiles[name]), Text(s.profiles[name].endpoint)))
    case Rebind(name, endpoint, credential, _) =>
      if !ValidName(name) then Err(InvalidProfileName)
      else if !ValidEnvironment(credential) then Err(InvalidCredentialEnvironment) else
      (match Load(file, bytes)
       case Err(e) => Err(e)
       case Ok(s) =>
         if name !in s.profiles then Err(ProfileMissing)
         else if s.profiles[name].credentialEnvironment == credential then Err(ReusedCredentialEnvironment)
         else Ask(command, name, Some(s.profiles[name]), endpoint))
  }

  function Discover(target: Url, reply: Reply): Result<Descriptor, Error> {
    match reply
    case Refused => Err(Discovery)
    case Answered(raw) => ValidateDescriptor(target, raw)
  }

  /** Everything a command does with the reply, up to the mutation it wants to commit. */
  function Receive(req: Request, reply: Reply): Result<Mutation, Error> {
    match Discover(req.target, reply)
    case Err(e) => Err(e)
    case Ok(d) =>
      match req
      case Request(Add(_, _, environment, confirmed), name, target, _) =>
        if !confirmed then Err(ConfirmationRequired) else
        (match ProfileFromDescriptor(target, d, environment)
         case Err(e) => Err(e)
         case Ok(profile) => Ok(Insert(name, profile)))
      case Request(Rebind(_, _, credential, confirmed), name, target, Some(snapshot)) =>
        if !confirmed then Err(ConfirmationRequired) else
        (match ProfileFromDescriptor(target, d, Some(credential))
         case Err(e) => Err(e)
         case Ok(profile) => Ok(Replace(name, snapshot, profile)))
      case Request(command, name, _, Some(snapshot)) =>
        if !MatchesIdentity(snapshot, d) then Err(IdentityChanged) else Ok(Merge(name, snapshot, d, command.Use?))
      case Request(_, _, _, None) => Err(ProfileMissing)
  }

  /** A command with nothing else running: snapshot, reply and commit on one and the same store. */
  function Alone(file: Option<Store>, command: Command, reply: Reply, bytes: Store -> nat): Result<Store, Error> {
    match Begin(command, file, bytes)
    case Err(e) => Err(e)
    case Ok(req) =>
      match Receive(req, reply)
      case Err(e) => Err(e)
      case Ok(m) => Commit(file, m, bytes)
  }

  // ----- interleavings -----

  datatype Process =
    | Idle(command: Command)
    | Discovering(req: Request)
    | Committing(req: Request, reply: Reply, mutation: Mutation)
    | Done
    | Failed(error: Error)

  datatype System = System(file: Option<Store>, processes: map<nat, Process>)

  datatype Step = Begun(pid: nat) | Replied(pid: nat, reply: Reply) | Committed(pid: nat) | StorageFailed(pid: nat)

  function Moved(s: System, pid: nat, p: Process): System {
    s.(processes := s.processes[pid := p])
  }

  function Next(s: System, step: Step, bytes: Store -> nat): System {
    if step.pid !in s.processes then s else
    match (step, s.processes[step.pid])
    case (Begun(pid), Idle(command)) =>
      (match Begin(command, s.file, bytes)
       case Err(e) => Moved(s, pid, Failed(e))
       case Ok(req) => Moved(s, pid, Discovering(req)))
    case (Replied(pid, reply), Discovering(req)) =>
      (match Receive(req, reply)
       case Err(e) => Moved(s, pid, Failed(e))
       case Ok(m) => Moved(s, pid, Committing(req, reply, m)))
    case (Committed(pid), Committing(_, _, m)) =>
      (match Commit(s.file, m, bytes)
       case Err(e) => Moved(s, pid, Failed(e))
       case Ok(store) => Moved(s, pid, Done).(file := Some(store)))
    case (StorageFailed(pid), _) => Moved(s, pid, Failed(ProfileStorage))
    case _ => s
  }

  function Run(s: System, steps: seq<Step>, bytes: Store -> nat): System {
    if steps == [] then s else Next(Run(s, steps[..|steps| - 1], bytes), steps[|steps| - 1], bytes)
  }

  /** The command a committing process would be if it named its profile explicitly. */
  function Resolved(req: Request): Command {
    if req.command.Check? then Check(Some(req.name)) else req.command
  }

  /** Does this step put a new store in place? */
  predicate Commits(s: System, step: Step, bytes: Store -> nat) {
    && step.Committed? && step.pid in s.processes && s.processes[step.pid].Committing?
    && Commit(s.file, s.processes[step.pid].mutation, bytes).Ok?
  }

  /** The successful commands of a run, in commit order, with the replies they got. */
  function Log(s: System, steps: seq<Step>, bytes: Store -> nat): seq<(Command, Reply)> {
    if steps == [] then [] else
    var before, step := Run(s, steps[..|steps| - 1], bytes), steps[|steps| - 1];
    var log := Log(s, steps[..|steps| - 1], bytes);
    if Commits(before, step, bytes) then
      var p := before.processes[step.pid];
      log + [(Resolved(p.req), p.reply)]
    else log
  }

  /** Running the logged commands one after the other, each alone; None if one of them fails. */
  function Serial(file: Option<Store>, log: seq<(Command, Reply)>, bytes: Store -> nat): Option<Option<Store>> {
    if log == [] then Some(file) else
    match Serial(file, log[..|log| - 1], bytes)
    case None => None
    case Some(f) =>
      match Alone(f, log[|log| - 1].0, log[|log| - 1].1, bytes)
      case Err(_) => None
      case Ok(store) => Some(Some(store))
  }

  // ----- every process is where its command can have brought it -----

  ghost predicate WellBegun(req: Request, bytes: Store -> nat) {
    exists file :: Begin(req.command, file, bytes) == Ok(req)
  }

  ghost predicate Tracked(p: Process, bytes: Store -> nat) {
    match p
    case Discovering(req) => WellBegun(req, bytes)
    case Committing(req, reply, m) => WellBegun(req, bytes) && Receive(req, reply) == Ok(m)
    case _ => true
  }

  ghost predicate Consistent(s: System, bytes: Store -> nat) {
    forall pid :: pid in s.processes ==> Tracked(s.processes[pid], bytes)
  }

  predicate Initial(s: System) {
    forall pid :: pid in s.processes ==> s.processes[pid].Idle?
  }

  lemma NextConsistent(s: System, step: Step, bytes: Store -> nat)
    requires Consistent(s, bytes)
    ensures Consistent(Next(s, step, bytes), bytes)
  {
    hide Begin, Receive, Commit;
    if step.Begun? && step.pid in s.processes && s.processes[step.pid].Idle? {
      BeginKeepsCommand(s.processes[step.pid].command, s.file, bytes);
    }
  }

  lemma BeginKeepsCommand(command: Command, file: Option<Store>, bytes: Store -> nat)
    ensures Begin(command, file, bytes).Ok? ==> Begin(command, file, bytes).value.command == command
  {
  }

  lemma {:induction false} RunConsistent(s: System, steps: seq<Step>, bytes: Store -> nat)
    requires Initial(s)
    ensures Consistent(Run(s, steps, bytes), bytes)
  {
    hide Next;
    if steps == [] {
    } else {
      RunConsistent(s, steps[..|steps| - 1], bytes);
      NextConsistent(Run(s, steps[..|steps| - 1], bytes), steps[|steps| - 1], bytes);
    }
  }

  // ----- serialisability -----

  /** A commit that goes through does what its command would have done alone, at that moment. */
  lemma CommitIsSerial(file: Option<Store>, req: Request, reply: Reply, m: Mutation, bytes: Store -> nat)
    requires WellBegun(req, bytes) && Receive(req, reply) == Ok(m) && Commit(file, m, bytes).Ok?
    ensures Alone(file, Resolved(req), reply, bytes) == Commit(file, m, bytes)
  {
    hide ValidateDescriptor, ValidateEndpoint, ProfileFromDescriptor, Loadable;
    var file0 :| Begin(req.command, file0, bytes) == Ok(req);
  }

  /**
   Every interleaving of add, use, check and rebind leaves the store that the successful commands
   leave when they run one at a time, in commit order.
   */
  lemma {:induction false} Serialisable(s: System, steps: seq<Step>, bytes: Store -> nat)
    requires Initial(s)
    ensures Serial(s.file, Log(s, steps, bytes), bytes) == Some(Run(s, steps, bytes).file)
  {
    hide Alone, Commit, Begin, Receive;
    if steps == [] {
    } else {
      var front, step := steps[..|steps| - 1], steps[|steps| - 1];
      Serialisable(s, front, bytes);
      RunConsistent(s, front, bytes);
      var before := Run(s, front, bytes);
      if Commits(before, step, bytes) {
        var p := before.processes[step.pid];
        CommitIsSerial(before.file, p.req, p.reply, p.mutation, bytes);
        var log := Log(s, steps, bytes);
        assert log[..|log| - 1] == Log(s, front, bytes);
      }
    }
  }

  // ----- what holds of every reachable store -----

  predicate GoodProfile(p: Profile) {
    && ValidateEndpoint(Text(p.endpoint)).Ok? && ValidEnvironment(p.credentialEnvironment)
    && SameOrigin(p.endpoint, p.apiBase) && (p.mcp.Some? ==> SameOrigin(p.endpoint, p.mcp.value))
  }

  predicate GoodStore(s: Store) {
    && (s.current.Some? ==> s.current.value in s.profiles)
    && forall n :: n in s.profiles ==> ValidName(n) && GoodProfile(s.profiles[n])
  }

  predicate GoodFile(file: Option<Store>) {
    file.Some? ==> GoodStore(file.value)
  }

  predicate GoodMutation(m: Mutation) {
    match m
    case Insert(name, profile) => ValidName(name) && GoodProfile(profile)
    case Merge(_, snapshot, d, _) => d.mcp.Some? ==> SameOrigin(snapshot.endpoint, d.mcp.value)
    case Replace(_, snapshot, profile) =>
      GoodProfile(profile) && profile.credentialEnvironment != snapshot.credentialEnvironment
  }

  /** What the checks before discovery establish, whatever the store was then. */
  lemma BegunFacts(req: Request, bytes: Store -> nat)
    requires WellBegun(req, bytes)
    ensures exists value :: ValidateEndpoint(value) == Ok(req.target)
    ensures !req.command.Check? ==> ValidName(req.name)
    ensures req.command.Use? || req.command.Check? ==> req.snapshot.Some? && req.target == req.snapshot.value.endpoint
    ensures req.command.Rebind? ==>
              req.snapshot.Some? && req.snapshot.value.credentialEnvironment != req.command.credential
  {
    hide Loadable;
    var file0 :| Begin(req.command, file0, bytes) == Ok(req);
  }

  lemma ReceiveIsGood(req: Request, reply: Reply, bytes: Store -> nat)
    requires WellBegun(req, bytes) && Receive(req, reply).Ok?
    ensures GoodMutation(Receive(req, reply).value)
  {
    hide ValidateEndpoint, Begin, WellBegun;
    BegunFacts(req, bytes);
    var value :| ValidateEndpoint(value) == Ok(req.target);
    EndpointReloads(value);
  }

  lemma MutateKeepsGood(s: Store, m: Mutation)
    requires GoodStore(s) && GoodMutation(m) && Mutate(s, m).Ok?
    ensures GoodStore(Mutate(s, m).value)
  {
    hide ValidateEndpoint;
  }

  /**
   In every run from a missing store file, the current profile exists and every profile's cached
   API base and MCP address are on the origin of its endpoint.
   */
  lemma {:induction false} RunKeepsGood(s: System, steps: seq<Step>, bytes: Store -> nat)
    requires Initial(s) && GoodFile(s.file)
    ensures GoodFile(Run(s, steps, bytes).file)
  {
    hide Begin, Receive, Mutate, GoodStore, GoodMutation, Loadable;
    if steps == [] {
    } else {
      var front, step := steps[..|steps| - 1], steps[|steps| - 1];
      RunKeepsGood(s, front, bytes);
      RunConsistent(s, front, bytes);
      var before := Run(s, front, bytes);
      if Commits(before, step, bytes) {
        var p := before.processes[step.pid];
        ReceiveIsGood(p.req, p.reply, bytes);
        EmptyIsGood();
        MutateKeepsGood(Load(before.file, bytes).value, p.mutation);
      }
    }
  }

  lemma EmptyIsGood()
    ensures GoodStore(EMPTY)
  {
  }

  /** A reachable store can be read back exactly when it is within the size limit that only reading checks. */
  lemma ReloadsIffItFits(s: System, steps: seq<Step>, bytes: Store -> nat)
    requires Initial(s) && s.file == None
    ensures var file := Run(s, steps, bytes).file;
            file.Some? ==> (Load(file, bytes) == Ok(file.value) <==> bytes(file.value) <= MAX_STORE_BYTES)
  {
    hide Run, ValidateEndpoint;
    RunKeepsGood(s, steps, bytes);
  }

  /** Past that limit no command ever succeeds again and the file never changes. */
  lemma {:induction false} OversizedForever(s: System, steps: seq<Step>, bytes: Store -> nat)
    requires s.file.Some? && bytes(s.file.value) > MAX_STORE_BYTES
    ensures Run(s, steps, bytes).file == s.file && Log(s, steps, bytes) == []
  {
    hide Begin, Receive;
    if steps == [] {
    } else {
      OversizedForever(s, steps[..|steps| - 1], bytes);
    }
  }

  // ----- authority -----

  predicate Bound(file: Option<Store>, name: string) {
    file.Some? && name in file.value.profiles
  }

  /** The step is the commit of a rebind of name whose snapshot still had the store's authority. */
  predicate RebindCommits(s: System, step: Step, name: string, bytes: Store -> nat)
    requires Bound(s.file, name)
  {
    && Commits(s, step, bytes)
    && var m := s.processes[step.pid].mutation;
      m.Replace? && m.name == name && SameAuthority(s.file.value.profiles[name], m.snapshot)
  }

  /** Only such a rebind changes the authority of a profile, and then to another credential variable. */
  lemma AuthorityStep(s: System, step: Step, name: string, bytes: Store -> nat)
    requires Consistent(s, bytes) && Bound(s.file, name)
    ensures Bound(Next(s, step, bytes).file, name)
    ensures var old', new' := s.file.value.profiles[name], Next(s, step, bytes).file.value.profiles[name];
            if RebindCommits(s, step, name, bytes)
            then
              && new' == s.processes[step.pid].mutation.profile
              && new'.credentialEnvironment != old'.credentialEnvironment
            else SameAuthority(new', old')
  {
    hide Begin, Receive;
    if Commits(s, step, bytes) {
      var p := s.processes[step.pid];
      ReceiveIsGood(p.req, p.reply, bytes);
    }
  }

  /** The successive authorities of one profile over a run; none before it is added. */
  function Authorities(s: System, steps: seq<Step>, name: string, bytes: Store -> nat): seq<Profile> {
    var before := if steps == [] then [] else Authorities(s, steps[..|steps| - 1], name, bytes);
    var after := Run(s, steps, bytes).file;
    if !Bound(after, name) then before
    else if before != [] && SameAuthority(before[|before| - 1], after.value.profiles[name]) then before
    else before + [after.value.profiles[name]]
  }

  /**
   Over every run, from any store or none, a profile that is there stays, and its consecutive
   authorities use different credential variables; the last one is the stored one.
   */
  lemma {:induction false} CredentialsAlternate(s: System, steps: seq<Step>, name: string, bytes: Store -> nat)
    requires Initial(s)
    ensures var a, file := Authorities(s, steps, name, bytes), Run(s, steps, bytes).file;
            && (a != [] <==> Bound(file, name))
            && (a != [] ==> SameAuthority(a[|a| - 1], file.value.profiles[name]))
            && forall i :: 0 < i < |a| ==> a[i - 1].credentialEnvironment != a[i].credentialEnvironment
  {
    hide Next, Consistent, RebindCommits;
    if steps == [] {
    } else {
      var front, step := steps[..|steps| - 1], steps[|steps| - 1];
      CredentialsAlternate(s, front, name, bytes);
      RunConsistent(s, front, bytes);
      if Bound(Run(s, front, bytes).file, name) {
        AuthorityStep(Run(s, front, bytes), step, name, bytes);
      }
    }
  }
}
