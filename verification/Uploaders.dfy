/** Any number of uploaders, and of other clients, on one immutable registry where the first write wins. */
module Uploaders {
  import opened Wrappers
  import opened Bytes
  import opened Upload

  datatype Uploader = Uploader(c: Candidate, attempts: nat, phase: Phase)

  datatype System = System(published: map<Key, Digest>, uploaders: map<nat, Uploader>)

  /** What the network and the registry's caches do to one exchange. */
  datatype Weather =
    | Fair
    | Stale       // a lookup does not show the version yet
    | RequestLost // nothing arrives
    | AnswerLost  // the request arrives, its answer does not

  datatype Step =
    | Ask(pid: nat, weather: Weather)     // an uploader makes its next request
    | Foreign(key: Key, digest: Digest)   // another client publishes

  // ----- steps -----

  function LookUp(published: map<Key, Digest>, key: Key, weather: Weather): Found {
    if weather.RequestLost? || weather.AnswerLost? then NoAnswer
    else if weather.Stale? || key !in published then Absent
    else Present(published[key])
  }

  function PublishAnswer(published: map<Key, Digest>, key: Key, body: seq<Byte>, weather: Weather): Answer {
    if weather.RequestLost? || weather.AnswerLost? || ParseBody(body).None? then Refused
    else if key in published then Conflict
    else Accepted
  }

  /** The exchange an uploader makes in its phase. */
  function Made(published: map<Key, Digest>, u: Uploader, weather: Weather): Exchange {
    if u.phase.Publishing? then
      var body := Body(u.c.metadata, u.c.archive);
      Published(u.c.key, body, PublishAnswer(published, u.c.key, body, weather))
    else Looked(u.c.key, LookUp(published, u.c.key, weather))
  }

  function Stored(published: map<Key, Digest>, u: Uploader, weather: Weather, hash: seq<Byte> -> Digest)
    : map<Key, Digest>
  {
    if u.phase.Publishing? && !weather.RequestLost?
    then Receive(published, u.c.key, Body(u.c.metadata, u.c.archive), hash)
    else published
  }

  predicate Moves(s: System, step: Step) {
    step.Ask? && step.pid in s.uploaders && !s.uploaders[step.pid].phase.Ended?
  }

  function Next(s: System, step: Step, hash: seq<Byte> -> Digest): System {
    if Moves(s, step) then
      var u := s.uploaders[step.pid];
      var phase := Advance(u.phase, u.attempts, hash(u.c.archive), Made(s.published, u, step.weather));
      System(Stored(s.published, u, step.weather, hash), s.uploaders[step.pid := u.(phase := phase)])
    else if step.Foreign? && step.key !in s.published then s.(published := s.published[step.key := step.digest])
    else s
  }

  function Run(s: System, steps: seq<Step>, hash: seq<Byte> -> Digest): System {
    if steps == [] then s else Next(Run(s, steps[..|steps| - 1], hash), steps[|steps| - 1], hash)
  }

  /** The exchanges of all uploaders, in order. */
  function Log(s: System, steps: seq<Step>, hash: seq<Byte> -> Digest): seq<(nat, Exchange)> {
    if steps == [] then [] else
    var before, step := Run(s, steps[..|steps| - 1], hash), steps[|steps| - 1];
    var log := Log(s, steps[..|steps| - 1], hash);
    if Moves(before, step)
    then log + [(step.pid, Made(before.published, before.uploaders[step.pid], step.weather))]
    else log
  }

  /** The exchanges of one uploader. */
  function Own(log: seq<(nat, Exchange)>, pid: nat): seq<Exchange> {
    if log == [] then [] else
    var own := Own(log[..|log| - 1], pid);
    if log[|log| - 1].0 == pid then own + [log[|log| - 1].1] else own
  }

  predicate Initial(s: System) {
    forall pid :: pid in s.uploaders ==> s.uploaders[pid].phase == Start(s.uploaders[pid].c, s.uploaders[pid].attempts)
  }

  // ----- every uploader is a run of the protocol -----

  predicate SameJobs(s: System, t: System) {
    && s.uploaders.Keys == t.uploaders.Keys
    && forall pid :: pid in s.uploaders ==> t.uploaders[pid] == s.uploaders[pid].(phase := t.uploaders[pid].phase)
  }

  lemma {:induction false} RunKeepsJobs(s: System, steps: seq<Step>, hash: seq<Byte> -> Digest)
    ensures SameJobs(s, Run(s, steps, hash))
  {
    hide Advance, Made, Stored;
    if steps == [] {
    } else {
      RunKeepsJobs(s, steps[..|steps| - 1], hash);
    }
  }

  /**
   In every interleaving the exchanges of each uploader are those of a run of the protocol, up to the
   phase it is in; in particular it publishes at most once, after seeing the version absent.
   */
  lemma {:induction false} EachFollowsTheProtocol(s: System, steps: seq<Step>, hash: seq<Byte> -> Digest, pid: nat)
    requires Initial(s) && pid in s.uploaders
    ensures pid in Run(s, steps, hash).uploaders
    ensures var u := s.uploaders[pid];
            && Reached(u.c, u.attempts, hash(u.c.archive), Own(Log(s, steps, hash), pid))
               == Some(Run(s, steps, hash).uploaders[pid].phase)
            && PublishesOnce(u.c, Own(Log(s, steps, hash), pid))
  {
    hide Advance, Made, Stored, PublishesOnce;
    var u := s.uploaders[pid];
    if steps == [] {
    } else {
      var front, step := steps[..|steps| - 1], steps[|steps| - 1];
      EachFollowsTheProtocol(s, front, hash, pid);
      RunKeepsJobs(s, front, hash);
      var before, log := Run(s, front, hash), Log(s, front, hash);
      if Moves(before, step) {
        var e := Made(before.published, before.uploaders[step.pid], step.weather);
        assert Log(s, steps, hash) == log + [(step.pid, e)];
        assert (log + [(step.pid, e)])[..|log + [(step.pid, e)]| - 1] == log;
        if step.pid == pid {
          MadeIsPermitted(before.published, before.uploaders[pid], step.weather);
          OneMore(u.c, u.attempts, hash(u.c.archive), Own(log, pid), e);
        }
      }
    }
    ProtocolPublishesOnce(u.c, u.attempts, hash(u.c.archive), Own(Log(s, steps, hash), pid));
  }

  lemma MadeIsPermitted(published: map<Key, Digest>, u: Uploader, weather: Weather)
    requires !u.phase.Ended?
    ensures Permitted(u.c, u.phase, Made(published, u, weather))
  {
  }

  // ----- what the registry holds -----

  lemma {:induction false} RunGrows(s: System, steps: seq<Step>, k: nat, hash: seq<Byte> -> Digest)
    requires k <= |steps|
    ensures Grows(Run(s, steps[..k], hash).published, Run(s, steps, hash).published)
    decreases |steps|
  {
    hide Advance, ParseBody;
    if k == |steps| {
      assert steps[..k] == steps;
    } else {
      var front := steps[..|steps| - 1];
      assert front[..k] == steps[..k];
      RunGrows(s, front, k, hash);
    }
  }

  /** What an ended uploader reports is what the registry holds. */
  ghost predicate Truthful(published: map<Key, Digest>, u: Uploader, hash: seq<Byte> -> Digest) {
    && (u.phase.Ended? && u.phase.result.Ok? ==>
          u.phase.result.value == hash(u.c.archive) && u.c.key in published && published[u.c.key] == hash(u.c.archive))
    && (u.phase == Ended(Err(DifferentBytes)) ==>
          u.c.key in published && published[u.c.key] != hash(u.c.archive))
  }

  lemma StaysTruthful(before: map<Key, Digest>, after: map<Key, Digest>, u: Uploader, hash: seq<Byte> -> Digest)
    requires Truthful(before, u, hash) && Grows(before, after)
    ensures Truthful(after, u, hash)
  {
  }

  lemma AdvanceIsTruthful(published: map<Key, Digest>, u: Uploader, weather: Weather, hash: seq<Byte> -> Digest)
    requires !u.phase.Ended?
    ensures var phase := Advance(u.phase, u.attempts, hash(u.c.archive), Made(published, u, weather));
            Truthful(published, u.(phase := phase), hash)
  {
    hide Body, ParseBody;
  }

  lemma {:induction false} AllTruthful(s: System, steps: seq<Step>, hash: seq<Byte> -> Digest)
    requires Initial(s)
    ensures forall pid :: pid in Run(s, steps, hash).uploaders ==>
              Truthful(Run(s, steps, hash).published, Run(s, steps, hash).uploaders[pid], hash)
  {
    if steps == [] {
    } else {
      hide Advance, Made, Stored, Truthful, Grows;
      var front, step := steps[..|steps| - 1], steps[|steps| - 1];
      AllTruthful(s, front, hash);
      RunGrows(s, steps, |front|, hash);
      assert steps[..|front|] == front;
      var before, after := Run(s, front, hash), Run(s, steps, hash);
      forall pid | pid in after.uploaders ensures Truthful(after.published, after.uploaders[pid], hash) {
        if Moves(before, step) && step.pid == pid {
          AdvanceIsTruthful(before.published, before.uploaders[pid], step.weather, hash);
          StaysTruthful(before.published, after.published, after.uploaders[pid], hash);
        } else {
          StaysTruthful(before.published, after.published, before.uploaders[pid], hash);
        }
      }
    }
  }

  predicate Succeeded(s: System, pid: nat) {
    pid in s.uploaders && s.uploaders[pid].phase.Ended? && s.uploaders[pid].phase.result.Ok?
  }

  /** In every interleaving all uploaders that succeeded for one version hold bytes of one digest, the registry's. */
  lemma SuccessesAgree(s: System, steps: seq<Step>, hash: seq<Byte> -> Digest, one: nat, other: nat)
    requires Initial(s) && Succeeded(Run(s, steps, hash), one) && Succeeded(Run(s, steps, hash), other)
    requires s.uploaders.Keys >= {one, other} && s.uploaders[one].c.key == s.uploaders[other].c.key
    ensures var t, key := Run(s, steps, hash), s.uploaders[one].c.key;
            && key in t.published
            && t.published[key] == hash(s.uploaders[one].c.archive) == hash(s.uploaders[other].c.archive)
            && t.uploaders[one].phase.result.value == t.uploaders[other].phase.result.value == t.published[key]
  {
    hide Run;
    AllTruthful(s, steps, hash);
    RunKeepsJobs(s, steps, hash);
  }

  // ----- accepted publishes -----

  predicate AcceptedPublish(e: Exchange) {
    e.Published? && e.answer.Accepted?
  }

  /** A version with an accepted publish is in the registry, with the digest of that body's archive. */
  lemma {:induction false} AcceptedIsStored(s: System, steps: seq<Step>, hash: seq<Byte> -> Digest, i: nat)
    requires i < |Log(s, steps, hash)| && AcceptedPublish(Log(s, steps, hash)[i].1)
    ensures var e := Log(s, steps, hash)[i].1;
            && e.key !in s.published
            && ParseBody(e.body).Some? && e.key in Run(s, steps, hash).published
            && Run(s, steps, hash).published[e.key] == hash(ParseBody(e.body).value.1)
  {
    hide Advance, ParseBody, Body;
    if steps == [] {
    } else {
      var front, step := steps[..|steps| - 1], steps[|steps| - 1];
      RunGrows(s, steps, |front|, hash);
      RunGrows(s, front, 0, hash);
      assert steps[..|front|] == front && front[..0] == [];
      if i < |Log(s, front, hash)| {
        AcceptedIsStored(s, front, hash, i);
      }
    }
  }

  /** In every interleaving at most one publish of a version is ever accepted. */
  lemma {:induction false} AtMostOneAccepted(s: System, steps: seq<Step>, hash: seq<Byte> -> Digest, i: nat, j: nat)
    requires i < j < |Log(s, steps, hash)|
    requires AcceptedPublish(Log(s, steps, hash)[i].1) && AcceptedPublish(Log(s, steps, hash)[j].1)
    ensures Log(s, steps, hash)[i].1.key != Log(s, steps, hash)[j].1.key
  {
    hide Advance, ParseBody, Body;
    if steps == [] {
    } else {
      var front := steps[..|steps| - 1];
      if j < |Log(s, front, hash)| {
        AtMostOneAccepted(s, front, hash, i, j);
      } else {
        AcceptedIsStored(s, front, hash, i);
      }
    }
  }

  // ----- progress -----

  /** In every interleaving an uploader ends after at most two exchanges more than it polls. */
  lemma EachEnds(s: System, steps: seq<Step>, hash: seq<Byte> -> Digest, pid: nat)
    requires Initial(s) && pid in s.uploaders
    ensures |Own(Log(s, steps, hash), pid)| <= s.uploaders[pid].attempts + 2
    ensures |Own(Log(s, steps, hash), pid)| == s.uploaders[pid].attempts + 2 ==>
              pid in Run(s, steps, hash).uploaders && Run(s, steps, hash).uploaders[pid].phase.Ended?
  {
    hide Run, Log, Own, Reached, PublishesOnce;
    EachFollowsTheProtocol(s, steps, hash, pid);
    var u := s.uploaders[pid];
    ProtocolEnds(u.c, u.attempts, hash(u.c.archive), Own(Log(s, steps, hash), pid));
  }

  /** The registry has the version, and the uploader has told which bytes it is of. */
  ghost predicate Decided(published: map<Key, Digest>, u: Uploader, hash: seq<Byte> -> Digest) {
    && u.c.key in published
    && u.phase == Ended(if published[u.c.key] == hash(u.c.archive) then Ok(hash(u.c.archive)) else Err(DifferentBytes))
  }

  /** Where an uploader is after some turns, if nothing went wrong. */
  ghost predicate OnTrack(published: map<Key, Digest>, u: Uploader, hash: seq<Byte> -> Digest, turns: nat) {
    || Decided(published, u, hash)
    || (turns == 0 && u.phase.Starting?)
    || (turns == 1 && u.phase.Publishing?)
    || (turns == 2 && u.phase.Polling? && u.c.key in published)
  }

  predicate FairTo(steps: seq<Step>, pid: nat) {
    forall i :: 0 <= i < |steps| && steps[i].Ask? && steps[i].pid == pid ==> steps[i].weather.Fair?
  }

  /** How often an uploader gets its turn. */
  function Turns(steps: seq<Step>, pid: nat): nat {
    if steps == [] then 0
    else Turns(steps[..|steps| - 1], pid) + if steps[|steps| - 1] == Ask(pid, Fair) then 1 else 0
  }

  lemma OnTrackLater(before: map<Key, Digest>, after: map<Key, Digest>, u: Uploader, hash: seq<Byte> -> Digest, n: nat)
    requires OnTrack(before, u, hash, n) && Grows(before, after)
    ensures OnTrack(after, u, hash, n)
  {
  }

  lemma FairExchange(published: map<Key, Digest>, u: Uploader, hash: seq<Byte> -> Digest, n: nat)
    requires OnTrack(published, u, hash, n) && !u.phase.Ended? && Admitted(u.c, u.attempts)
    ensures var phase := Advance(u.phase, u.attempts, hash(u.c.archive), Made(published, u, Fair));
            OnTrack(Stored(published, u, Fair, hash), u.(phase := phase), hash, n + 1)
  {
    hide Body, ParseBody;
    BodyRoundTrip(u.c.metadata, u.c.archive);
  }

  /**
   However the others behave, an uploader none of whose own exchanges goes wrong has told after its
   third turn whether the registry holds its bytes; it succeeds exactly if the registry does.
   */
  lemma {:induction false} FairUploaderDecides(s: System, steps: seq<Step>, hash: seq<Byte> -> Digest, pid: nat)
    requires Initial(s) && pid in s.uploaders && FairTo(steps, pid)
    requires Admitted(s.uploaders[pid].c, s.uploaders[pid].attempts)
    ensures var t, n := Run(s, steps, hash), Turns(steps, pid);
            && pid in t.uploaders && OnTrack(t.published, t.uploaders[pid], hash, n)
            && (n >= 3 ==> Decided(t.published, t.uploaders[pid], hash))
  {
    hide Advance, Made, Stored, OnTrack, Decided, Admitted;
    if steps == [] {
      assert OnTrack(s.published, s.uploaders[pid], hash, 0) by { StartsOnTrack(s, pid, hash); }
    } else {
      var front, step := steps[..|steps| - 1], steps[|steps| - 1];
      FairUploaderDecides(s, front, hash, pid);
      RunKeepsJobs(s, front, hash);
      RunGrows(s, steps, |front|, hash);
      assert steps[..|front|] == front;
      var before, after, n := Run(s, front, hash), Run(s, steps, hash), Turns(front, pid);
      if Moves(before, step) && step.pid == pid {
        FairExchange(before.published, before.uploaders[pid], hash, n);
      } else {
        OnTrackLater(before.published, after.published, before.uploaders[pid], hash, n);
        if step == Ask(pid, Fair) {
          EndedOnTrack(after.published, after.uploaders[pid], hash, n);
        }
      }
    }
    ThirdDecides(Run(s, steps, hash).published, Run(s, steps, hash).uploaders[pid], hash, Turns(steps, pid));
  }

  lemma EndedOnTrack(published: map<Key, Digest>, u: Uploader, hash: seq<Byte> -> Digest, n: nat)
    requires OnTrack(published, u, hash, n) && u.phase.Ended?
    ensures OnTrack(published, u, hash, n + 1)
  {
  }

  lemma StartsOnTrack(s: System, pid: nat, hash: seq<Byte> -> Digest)
    requires Initial(s) && pid in s.uploaders && Admitted(s.uploaders[pid].c, s.uploaders[pid].attempts)
    ensures OnTrack(s.published, s.uploaders[pid], hash, 0)
  {
  }

  lemma ThirdDecides(published: map<Key, Digest>, u: Uploader, hash: seq<Byte> -> Digest, n: nat)
    requires OnTrack(published, u, hash, n)
    ensures n >= 3 ==> Decided(published, u, hash)
  {
  }

  /** Nobody offers anything but bytes of one digest for a version. */
  ghost predicate Uncontested(s: System, steps: seq<Step>, hash: seq<Byte> -> Digest, key: Key, digest: Digest) {
    && (key in s.published ==> s.published[key] == digest)
    && (forall pid :: pid in s.uploaders && s.uploaders[pid].c.key == key ==>
          hash(s.uploaders[pid].c.archive) == digest)
    && (forall i :: 0 <= i < |steps| && steps[i].Foreign? && steps[i].key == key ==> steps[i].digest == digest)
  }

  lemma StoresItsOwn(published: map<Key, Digest>, u: Uploader, weather: Weather, hash: seq<Byte> -> Digest)
    requires Admitted(u.c, u.attempts)
    ensures Stored(published, u, weather, hash) == published
            || Stored(published, u, weather, hash) == published[u.c.key := hash(u.c.archive)]
  {
    hide Body, ParseBody;
    BodyRoundTrip(u.c.metadata, u.c.archive);
  }

  lemma {:induction false} UncontestedStays(s: System, steps: seq<Step>, hash: seq<Byte> -> Digest, key: Key,
                                            digest: Digest)
    requires Initial(s) && Uncontested(s, steps, hash, key, digest)
    ensures key in Run(s, steps, hash).published ==> Run(s, steps, hash).published[key] == digest
  {
    hide Advance, Made, Stored, Reached, PublishesOnce, Admitted;
    if steps == [] {
    } else {
      var front, step := steps[..|steps| - 1], steps[|steps| - 1];
      UncontestedStays(s, front, hash, key, digest);
      RunKeepsJobs(s, front, hash);
      var before := Run(s, front, hash);
      if Moves(before, step) {
        var u := before.uploaders[step.pid];
        EachFollowsTheProtocol(s, front, hash, step.pid);
        MovingIsAdmitted(u.c, u.attempts, hash(u.c.archive), Own(Log(s, front, hash), step.pid));
        StoresItsOwn(before.published, u, step.weather, hash);
      }
    }
  }

  lemma MovingIsAdmitted(c: Candidate, attempts: nat, expected: Digest, log: seq<Exchange>)
    requires Reached(c, attempts, expected, log).Some? && !Reached(c, attempts, expected, log).value.Ended?
    ensures Admitted(c, attempts)
  {
    hide Body;
    if log == [] {
    } else {
      ProtocolPublishesOnce(c, attempts, expected, log);
    }
  }

  /** Without other bytes in play and with fair weather of its own, an uploader has succeeded after its third turn. */
  lemma UncontestedUploadSucceeds(s: System, steps: seq<Step>, hash: seq<Byte> -> Digest, pid: nat)
    requires Initial(s) && pid in s.uploaders && FairTo(steps, pid)
    requires Admitted(s.uploaders[pid].c, s.uploaders[pid].attempts)
    requires Uncontested(s, steps, hash, s.uploaders[pid].c.key, hash(s.uploaders[pid].c.archive))
    requires Turns(steps, pid) >= 3
    ensures var t := Run(s, steps, hash);
            pid in t.uploaders && t.uploaders[pid].phase == Ended(Ok(hash(s.uploaders[pid].c.archive)))
  {
    hide Run, Turns, OnTrack, Uncontested, Admitted;
    FairUploaderDecides(s, steps, hash, pid);
    RunKeepsJobs(s, steps, hash);
    UncontestedStays(s, steps, hash, s.uploaders[pid].c.key, hash(s.uploaders[pid].c.archive));
  }
}
